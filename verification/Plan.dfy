/** What a run of the month loop is to do, as a function of its draws: who is active in each month, what becomes of each
    account, which events are drawn, and in what order they are emitted. */
module Plan {
  import opened Rows
  import opened Calendar
  import opened Sorting
  import opened Deposits
  import Lending
  import opened Emission
  import opened Months
  import opened Activity

  /** What a run is given and never changes. */
  datatype Facts = Facts(
    terms: seq<Terms>, openedOn: seq<int>, cardIds: seq<seq<nat>>, cards: seq<CardRow>, holdUntil: map<nat, int>,
    anchorDay: int, agents: nat, lifecycle: (nat, nat) -> LifecycleDraw, activity: (nat, nat) -> MonthDraws)
  {
    /** The account is in the book. */
    predicate Has(a: nat) {
      1 <= a <= |openedOn| && |terms| == |openedOn| && |cardIds| == |openedOn|
    }
  }

  /** One month: its number, its window, and the accounts that open in it. */
  datatype Month = Month(number: nat, span: Span, entered: seq<nat>)

  function Lives(status: seq<AccountStatus>, closedOn: seq<Option<int>>): (lives: seq<Life>)
    requires |status| == |closedOn|
    ensures |lives| == |status|
  {
    seq(|status|, i requires 0 <= i < |status| => Life(status[i], closedOn[i]))
  }

  /** The month's attrition, for the active accounts. */
  function Decided(f: Facts, lives: seq<Life>, m: Month, active: seq<nat>): (after: seq<Life>)
    requires |lives| == |f.openedOn| && m.span.first <= m.span.last
    ensures |after| == |lives|
  {
    seq(|lives|, i requires 0 <= i < |lives| =>
      if i + 1 in active
      then Decide(lives[i], f.openedOn[i], HoldOf(f.holdUntil, i + 1), f.lifecycle(i + 1, m.number), m.span.first,
                  m.span.last)
      else lives[i])
  }

  /** The account's window of the month: from its opening, to its closing; none when the two leave no day. */
  function WindowOf(f: Facts, lives: seq<Life>, m: Month, a: nat): (c: Option<Context>)
    requires |lives| == |f.openedOn| && f.Has(a)
    ensures c.Some? ==> c.value.first <= c.value.last
  {
    var index, closed := a - 1, lives[a - 1].closedOn;
    if closed.Some? && closed.value < m.span.first then None
    else
      var last := if closed.Some? then Min(m.span.last, closed.value) else m.span.last;
      var first := Max(m.span.first, f.openedOn[index]);
      if first > last then None
      else Some(Context(a, f.terms[index], f.openedOn[index], f.cardIds[index], f.cards, m.span, first, last,
                        a in m.entered, f.anchorDay, f.agents))
  }

  /** What an account does in the month; an id that names no account does nothing. */
  function EventsOf(f: Facts, lives: seq<Life>, m: Month, a: nat): seq<Event>
    requires |lives| == |f.openedOn|
  {
    if !f.Has(a) then []
    else
      var c := WindowOf(f, lives, m, a);
      if c.None? || !OwnCards(c.value) then []
      else MonthOf(c.value, lives[a - 1].status, f.activity(a, m.number))
  }

  function EventsIn(f: Facts, lives: seq<Life>, m: Month): nat -> seq<Event>
    requires |lives| == |f.openedOn|
  {
    (a: nat) requires |lives| == |f.openedOn| => EventsOf(f, lives, m, a)
  }

  /** What each account of a list does, account by account. */
  function Gathered(own: nat -> seq<Event>, active: seq<nat>): seq<Event> {
    if active == [] then [] else Gathered(own, active[..|active| - 1]) + own(active[|active| - 1])
  }

  lemma {:induction false} GatheredNext(own: nat -> seq<Event>, active: seq<nat>, a: nat)
    ensures Gathered(own, active + [a]) == Gathered(own, active) + own(a)
  {
    assert (active + [a])[..|active|] == active;
  }

  /** The month's events of the active accounts. */
  function ActiveEvents(f: Facts, lives: seq<Life>, m: Month, active: seq<nat>): seq<Event>
    requires |lives| == |f.openedOn|
  {
    Gathered(EventsIn(f, lives, m), active)
  }

  /** The accounts of a list that have not closed, in order. */
  function StillOpen(lives: seq<Life>, active: seq<nat>): seq<nat> {
    if active == [] then []
    else
      var front, a := StillOpen(lives, active[..|active| - 1]), active[|active| - 1];
      if 1 <= a <= |lives| && lives[a - 1].closedOn.None? then front + [a] else front
  }

  lemma {:induction false} StillOpenNext(lives: seq<Life>, active: seq<nat>, a: nat)
    requires 1 <= a <= |lives|
    ensures StillOpen(lives, active + [a])
            == if lives[a - 1].closedOn.None? then StillOpen(lives, active) + [a] else StillOpen(lives, active)
  {
    assert (active + [a])[..|active|] == active;
  }

  lemma {:induction false} StillOpenHolds(lives: seq<Life>, active: seq<nat>, a: nat)
    ensures a in StillOpen(lives, active) <==> a in active && 1 <= a <= |lives| && lives[a - 1].closedOn.None?
  {
    if active != [] {
      StillOpenHolds(lives, active[..|active| - 1], a);
      assert active == active[..|active| - 1] + [active[|active| - 1]];
    }
  }

  /** The accounts that stay active are exactly those of the list that have not closed, none more often than it was. */
  lemma {:induction false} StillOpenIsAmong(lives: seq<Life>, active: seq<nat>)
    ensures multiset(StillOpen(lives, active)) <= multiset(active)
    ensures forall a: nat ::
              a in StillOpen(lives, active) <==> a in active && 1 <= a <= |lives| && lives[a - 1].closedOn.None?
  {
    StillOpenOnce(lives, active);
    forall a: nat
      ensures a in StillOpen(lives, active) <==> a in active && 1 <= a <= |lives| && lives[a - 1].closedOn.None?
    {
      StillOpenHolds(lives, active, a);
    }
  }

  lemma {:induction false} StillOpenOnce(lives: seq<Life>, active: seq<nat>)
    ensures multiset(StillOpen(lives, active)) <= multiset(active)
  {
    if active != [] {
      StillOpenOnce(lives, active[..|active| - 1]);
      assert active == active[..|active| - 1] + [active[|active| - 1]];
    }
  }

  /** Where the run stands after a number of months: who is active, and what has become of each account. */
  datatype Progress = Progress(active: seq<nat>, lives: seq<Life>)

  /** A month's attrition; accounts that closed leave the active list. */
  function AfterMonth(f: Facts, p: Progress, m: Month): (after: Progress)
    requires |p.lives| == |f.openedOn| && m.span.first <= m.span.last
    ensures |after.lives| == |f.openedOn|
  {
    var lives := Decided(f, p.lives, m, p.active);
    Progress(StillOpen(lives, p.active), lives)
  }

  /** Month `m`, counting from zero. */
  function MonthAt(f: Facts, spans: seq<Span>, m: nat): (month: Month)
    requires m < |spans|
    ensures month.span == spans[m] && month.number == m
  {
    Month(m, spans[m], Buckets(f.openedOn, spans, |f.openedOn|)[m])
  }

  /** No month's window is empty. */
  ghost predicate Nonempty(spans: seq<Span>) {
    forall i :: 0 <= i < |spans| ==> spans[i].first <= spans[i].last
  }

  /** The whole run: every account starts live and open, and joins in the month it enters in. */
  ghost function AfterMonths(f: Facts, spans: seq<Span>, n: nat): (p: Progress)
    requires n <= |spans| && Nonempty(spans)
    ensures |p.lives| == |f.openedOn|
    decreases n, 0
  {
    if n == 0 then Progress([], seq(|f.openedOn|, _ => Life(Active, None)))
    else AfterMonth(f, Entering(f, spans, n - 1), MonthAt(f, spans, n - 1))
  }

  /** The run at the start of month `m`, with the accounts that open in it. */
  ghost function Entering(f: Facts, spans: seq<Span>, m: nat): (p: Progress)
    requires m < |spans| && Nonempty(spans)
    ensures |p.lives| == |f.openedOn|
    decreases m, 1
  {
    var p := AfterMonths(f, spans, m);
    p.(active := p.active + MonthAt(f, spans, m).entered)
  }

  /** The events the active accounts draw in month `m`. */
  ghost function OwnEvents(f: Facts, spans: seq<Span>, m: nat): seq<Event>
    requires m < |spans| && Nonempty(spans)
  {
    var p, month := Entering(f, spans, m), MonthAt(f, spans, m);
    ActiveEvents(f, Decided(f, p.lives, month, p.active), month, p.active)
  }

  /** What the months draw, month by month. */
  ghost function Own(f: Facts, spans: seq<Span>): nat -> seq<Event>
    requires Nonempty(spans)
  {
    (m: nat) => if m < |spans| then OwnEvents(f, spans, m) else []
  }

  /** The first `n` pieces, one after the other. */
  ghost function Joined(pieces: nat -> seq<Event>, n: nat): seq<Event> {
    if n == 0 then [] else Joined(pieces, n - 1) + pieces(n - 1)
  }

  lemma {:induction false} JoinedHolds(pieces: nat -> seq<Event>, n: nat, e: Event)
    requires e in Joined(pieces, n)
    ensures exists m :: 0 <= m < n && e in pieces(m)
  {
    if e !in pieces(n - 1) {
      JoinedHolds(pieces, n - 1, e);
    }
  }

  /** An event of one piece and no other is in the whole as often as it is in that piece. */
  lemma {:induction false} JoinedCount(pieces: nat -> seq<Event>, n: nat, e: Event, entry: nat, count: nat)
    requires forall m :: 0 <= m < n ==> multiset(pieces(m))[e] == if m == entry then count else 0
    ensures multiset(Joined(pieces, n))[e] == if entry < n then count else 0
  {
    if n > 0 {
      JoinedCount(pieces, n - 1, e, entry, count);
    }
  }

  // ---------------------------------------------------------------- the order of emission

  function EventKey(): Event -> Key {
    (e: Event) => Key(e.at, e.accountId, e.place)
  }

  /** A loan cash flow as a movement on the customer's account: a transfer in, or a direct debit. */
  function LoanEvent(c: Lending.CashEvent): Event {
    var incoming := c.amount > 0;
    Event(c.when, c.accountId, 0, DayOf(c.when),
          Transaction(if incoming then "transfer_in" else "direct_debit", None,
                      if incoming then c.amount else -c.amount,
                      "posted", None, DayOf(c.when), c.currency, c.principal))
  }

  function LoanEvents(cash: seq<Lending.CashEvent>): seq<Event> {
    seq(|cash|, i requires 0 <= i < |cash| => LoanEvent(cash[i]))
  }

  /** Where the loan cursor stops: at the first cash flow after the day. */
  function Due(cash: seq<Lending.CashEvent>, cursor: nat, day: int): (next: nat)
    requires cursor <= |cash|
    ensures cursor <= next <= |cash| && (next < |cash| ==> DayOf(cash[next].when) > day)
    ensures forall i :: cursor <= i < next ==> DayOf(cash[i].when) <= day
    decreases |cash| - cursor
  {
    if cursor < |cash| && DayOf(cash[cursor].when) <= day then Due(cash, cursor + 1, day) else cursor
  }

  /** The loan cash flows merged by the end of `n` months. */
  function Merged(cash: seq<Lending.CashEvent>, spans: seq<Span>, n: nat): (cursor: nat)
    requires n <= |spans|
    ensures cursor <= |cash|
  {
    if n == 0 then 0 else Due(cash, Merged(cash, spans, n - 1), spans[n - 1].last)
  }

  /** What month `m` emits, in order: its own events and the loan cash flows that have come due, sorted by instant,
      account and place. */
  ghost function Piece(f: Facts, cash: seq<Lending.CashEvent>, spans: seq<Span>, m: nat): seq<Event>
    requires m < |spans| && Nonempty(spans)
  {
    SortedBy(OwnEvents(f, spans, m) + LoanEvents(cash[Merged(cash, spans, m)..Merged(cash, spans, m + 1)]), EventKey())
  }

  ghost function Pieces(f: Facts, cash: seq<Lending.CashEvent>, spans: seq<Span>): nat -> seq<Event>
    requires Nonempty(spans)
  {
    (m: nat) => if m < |spans| then Piece(f, cash, spans, m) else []
  }

  /** Everything the first `n` months draw. */
  ghost function DrawnOver(f: Facts, spans: seq<Span>, n: nat): seq<Event>
    requires n <= |spans| && Nonempty(spans)
  {
    Joined(Own(f, spans), n)
  }

  /** Everything the first `n` months emit, in order. */
  ghost function Emitted(f: Facts, cash: seq<Lending.CashEvent>, spans: seq<Span>, n: nat): seq<Event>
    requires n <= |spans| && Nonempty(spans)
  {
    Joined(Pieces(f, cash, spans), n)
  }

  lemma {:induction false} NextMonthJoins(f: Facts, cash: seq<Lending.CashEvent>, spans: seq<Span>, m: nat)
    requires m < |spans| && Nonempty(spans)
    ensures DrawnOver(f, spans, m + 1) == DrawnOver(f, spans, m) + OwnEvents(f, spans, m)
    ensures Emitted(f, cash, spans, m + 1) == Emitted(f, cash, spans, m) + Piece(f, cash, spans, m)
  {
  }

  /** A month's events go out by instant, account and place, every one of its own and every loan cash flow of its
      window once; two with the same key go out in the order they were drawn. */
  lemma {:induction false} PiecesAreOrdered(f: Facts, cash: seq<Lending.CashEvent>, spans: seq<Span>, m: nat, k: Key)
    requires m < |spans| && Nonempty(spans)
    ensures var all := OwnEvents(f, spans, m) + LoanEvents(cash[Merged(cash, spans, m)..Merged(cash, spans, m + 1)]);
            && Ascending(Piece(f, cash, spans, m), EventKey())
            && multiset(Piece(f, cash, spans, m)) == multiset(all)
            && Ties(Piece(f, cash, spans, m), EventKey(), k) == Ties(all, EventKey(), k)
  {
    var all := OwnEvents(f, spans, m) + LoanEvents(cash[Merged(cash, spans, m)..Merged(cash, spans, m + 1)]);
    SortedByOrders(all, EventKey());
    SortedByIsStable(all, EventKey(), k);
  }

  /** Which is: by instant; at one instant, by account; for one account at one instant, by place. */
  lemma {:induction false} PiecesGoByTime(
    f: Facts, cash: seq<Lending.CashEvent>, spans: seq<Span>, m: nat, i: nat, k: nat)
    requires m < |spans| && Nonempty(spans) && i < k < |Piece(f, cash, spans, m)|
    ensures var a, b := Piece(f, cash, spans, m)[i], Piece(f, cash, spans, m)[k];
            && a.at <= b.at && (a.at == b.at ==> a.accountId <= b.accountId)
            && (a.at == b.at && a.accountId == b.accountId ==> a.place <= b.place)
  {
    var piece := Piece(f, cash, spans, m);
    SortedByOrders(OwnEvents(f, spans, m) + LoanEvents(cash[Merged(cash, spans, m)..Merged(cash, spans, m + 1)]),
                   EventKey());
    assert AtMost(EventKey()(piece[i]), EventKey()(piece[k]));
  }

  lemma {:induction false} MergedIsDue(
    cash: seq<Lending.CashEvent>, spans: seq<Span>, start: int, end: int, n: nat, i: nat)
    requires Ascending(cash, Lending.CashKey()) && Tiles(spans, start, end) && n <= |spans| && i < |cash|
    ensures i < Merged(cash, spans, n) <==> n > 0 && DayOf(cash[i].when) <= spans[n - 1].last
  {
    if n > 0 {
      MergedIsDue(cash, spans, start, end, n - 1, i);
      var cursor, next := Merged(cash, spans, n - 1), Merged(cash, spans, n);
      if next <= i {
        assert AtMost(Lending.CashKey()(cash[next]), Lending.CashKey()(cash[i])) || i == next;
      }
    }
  }

  /** A loan cash flow is emitted in the month whose window holds its day; one from before the history, in the first. */
  lemma {:induction false} LoansGoOutInTheirMonth(
    cash: seq<Lending.CashEvent>, spans: seq<Span>, start: int, end: int, m: nat, i: nat)
    requires Ascending(cash, Lending.CashKey()) && Tiles(spans, start, end) && m < |spans| && i < |cash|
    ensures Merged(cash, spans, m) <= i < Merged(cash, spans, m + 1)
            <==> Within(spans[m], DayOf(cash[i].when)) || (m == 0 && DayOf(cash[i].when) < start)
  {
    MergedIsDue(cash, spans, start, end, m, i);
    MergedIsDue(cash, spans, start, end, m + 1, i);
  }

  lemma {:induction false} MonthKeepsClosed(f: Facts, p: Progress, m: Month, i: nat)
    requires |p.lives| == |f.openedOn| && m.span.first <= m.span.last && i < |p.lives| && p.lives[i].closedOn.Some?
    ensures AfterMonth(f, p, m).lives[i] == p.lives[i]
  {
    assert Decided(f, p.lives, m, p.active)[i] == p.lives[i];
  }

  /** No month of the run undoes a closure or moves it. */
  lemma {:induction false} NextMonthKeepsClosed(f: Facts, spans: seq<Span>, n: nat, i: nat)
    requires n < |spans| && i < |f.openedOn| && Nonempty(spans)
    requires AfterMonths(f, spans, n).lives[i].closedOn.Some?
    ensures AfterMonths(f, spans, n + 1).lives[i] == AfterMonths(f, spans, n).lives[i]
  {
    MonthKeepsClosed(f, Entering(f, spans, n), MonthAt(f, spans, n), i);
  }
}
