/** When an account's opening deposit goes out: exactly once, or never because the account goes dormant as it enters. */
module OpeningDeposits {
  import opened Rows
  import opened Calendar
  import opened Deposits
  import Lending
  import opened Emission
  import opened Months
  import opened Activity
  import opened Shapes
  import opened Plan
  import opened Movements

  /** Whole facts: every account has its terms and lists its own cards, and none opens past the anchor. */
  ghost predicate Whole(f: Facts, spans: seq<Span>, start: int) {
    && Tiles(spans, start, f.anchorDay) && |f.terms| == |f.openedOn| == |f.cardIds|
    && OnlyOwnListed(f.cardIds, f.cards) && forall i :: 0 <= i < |f.openedOn| ==> f.openedOn[i] <= f.anchorDay
  }

  /** The month the account enters in. */
  function EntryOf(f: Facts, spans: seq<Span>, a: nat): (m: nat)
    requires f.Has(a) && spans != []
    ensures m < |spans|
  {
    EntryMonth(spans, f.openedOn[a - 1])
  }

  /** The account's opening deposit: the first of its movements, at nine on its opening day. */
  function DepositOf(f: Facts, spans: seq<Span>, a: nat): Event
    requires f.Has(a) && spans != []
  {
    var day, t := f.openedOn[a - 1], f.terms[a - 1];
    var at := At(day, 9 * 3600 + f.activity(a, EntryOf(f, spans, a)).openingMinute % 60 * 60);
    Event(at, a, 1, day, Transaction("transfer_in", None, t.openingBalance, "posted", None, day, t.currency, None))
  }

  /** The draws of the month an account enters in make it dormant and do not close it in the same month: no closure is
      drawn, or its day falls on or before the last loan day, or within thirty days of opening. */
  predicate DormantOnEntry(f: Facts, spans: seq<Span>, a: nat)
    requires f.Has(a) && spans != [] && forall i :: 0 <= i < |spans| ==> spans[i].first <= spans[i].last
  {
    var m, openDay := EntryOf(f, spans, a), f.openedOn[a - 1];
    var d, hold := f.lifecycle(a, m), HoldOf(f.holdUntil, a);
    var closeDay := spans[m].first + d.closeOffset % (spans[m].last - spans[m].first + 1);
    d.becomesDormant && !(d.closes && (hold.Some? ==> hold.value < closeDay) && openDay + 30 <= closeDay)
  }

  /** Which is when attrition leaves a new account dormant. */
  lemma {:induction false} DormantOnEntryIsDecided(f: Facts, spans: seq<Span>, a: nat)
    requires f.Has(a) && spans != [] && Nonempty(spans)
    ensures var m := EntryOf(f, spans, a);
            DormantOnEntry(f, spans, a)
            <==> Decide(Life(Active, None), f.openedOn[a - 1], HoldOf(f.holdUntil, a), f.lifecycle(a, m),
                        spans[m].first, spans[m].last).status == Dormant
  {
  }

  // ---------------------------------------------------------------- who is active when

  lemma {:induction false} ClosingKeepsActive(
    f: Facts, p: Progress, m: Month, buckets: seq<seq<nat>>, spans: seq<Span>, n: nat)
    requires |p.lives| == |f.openedOn| && m.span.first <= m.span.last && spans != []
    requires ActiveSound(p.active, buckets, f.openedOn, spans, n)
    ensures ActiveSound(AfterMonth(f, p, m).active, buckets, f.openedOn, spans, n)
  {
    StillOpenIsAmong(AfterMonth(f, p, m).lives, p.active);
    StayingKeepsActive(AfterMonth(f, p, m).active, p.active, buckets, f.openedOn, spans, n);
  }

  /** Only accounts that have entered are active, each once. */
  lemma {:induction false} ActiveHaveEntered(f: Facts, spans: seq<Span>, start: int, n: nat)
    requires Whole(f, spans, start) && n <= |spans| && Nonempty(spans)
    ensures ActiveSound(AfterMonths(f, spans, n).active, Buckets(f.openedOn, spans, |f.openedOn|), f.openedOn, spans, n)
    decreases n, 0
  {
    if n > 0 {
      EnteringIsSound(f, spans, start, n - 1);
      ClosingKeepsActive(f, Entering(f, spans, n - 1), MonthAt(f, spans, n - 1),
                         Buckets(f.openedOn, spans, |f.openedOn|), spans, n);
    }
  }

  lemma {:induction false} EnteringIsSound(f: Facts, spans: seq<Span>, start: int, m: nat)
    requires Whole(f, spans, start) && m < |spans| && Nonempty(spans)
    ensures ActiveSound(Entering(f, spans, m).active, Buckets(f.openedOn, spans, |f.openedOn|), f.openedOn, spans,
                        m + 1)
    ensures Distinct(Entering(f, spans, m).active)
    decreases m, 1
  {
    var buckets := Buckets(f.openedOn, spans, |f.openedOn|);
    ActiveHaveEntered(f, spans, start, m);
    BucketsHoldEveryId(f.openedOn, spans, |f.openedOn|);
    BucketsFileRight(f.openedOn, spans, |f.openedOn|);
    EnterMonth(AfterMonths(f, spans, m).active, buckets, f.openedOn, spans, m, start, f.anchorDay);
  }

  /** Until its month comes an account is not active, and stays as it was born. */
  lemma {:induction false} NotActiveBeforeEntry(f: Facts, spans: seq<Span>, start: int, a: nat, m: nat)
    requires Whole(f, spans, start) && Nonempty(spans) && f.Has(a) && m < EntryOf(f, spans, a)
    ensures a !in Entering(f, spans, m).active
  {
    EnteringIsSound(f, spans, start, m);
  }

  lemma {:induction false} LivesUntilEntry(f: Facts, spans: seq<Span>, start: int, a: nat, n: nat)
    requires Whole(f, spans, start) && Nonempty(spans) && f.Has(a) && n <= EntryOf(f, spans, a)
    ensures AfterMonths(f, spans, n).lives[a - 1] == Life(Active, None)
  {
    if n > 0 {
      LivesUntilEntry(f, spans, start, a, n - 1);
      NotActiveBeforeEntry(f, spans, start, a, n - 1);
      OthersKeepTheirLives(f, Entering(f, spans, n - 1), MonthAt(f, spans, n - 1), a);
    }
  }

  lemma {:induction false} OthersKeepTheirLives(f: Facts, p: Progress, m: Month, a: nat)
    requires |p.lives| == |f.openedOn| && m.span.first <= m.span.last && 1 <= a <= |p.lives| && a !in p.active
    ensures AfterMonth(f, p, m).lives[a - 1] == p.lives[a - 1]
  {
  }

  lemma {:induction false} EntersInItsMonth(f: Facts, spans: seq<Span>, a: nat)
    requires spans != [] && Nonempty(spans) && f.Has(a)
    ensures a in Entering(f, spans, EntryOf(f, spans, a)).active && a in MonthAt(f, spans, EntryOf(f, spans, a)).entered
  {
    AccountIsFiled(f.openedOn, spans, |f.openedOn|, a);
  }

  // ---------------------------------------------------------------- where the deposit can be

  /** No other account draws the event. */
  ghost predicate OnlyItsOwn(own: nat -> seq<Event>, e: Event) {
    forall b :: b != e.accountId ==> e !in own(b)
  }

  /** An event of one account is among a month's events as often as it is among that account's. */
  lemma {:induction false} GatheredCount(own: nat -> seq<Event>, active: seq<nat>, e: Event)
    requires Distinct(active) && OnlyItsOwn(own, e)
    ensures multiset(Gathered(own, active))[e] == if e.accountId in active then multiset(own(e.accountId))[e] else 0
  {
    if active != [] {
      var front, last := active[..|active| - 1], active[|active| - 1];
      GatheredCount(own, front, e);
      assert active == front + [last];
      assert e.accountId in active <==> e.accountId in front || e.accountId == last;
      assert last !in front;
      if last != e.accountId {
        assert e !in multiset(own(last));
      }
    }
  }

  lemma {:induction false} EventsAreOwn(f: Facts, lives: seq<Life>, m: Month, b: nat, e: Event)
    requires |lives| == |f.openedOn| && e in EventsOf(f, lives, m, b)
    ensures e.accountId == b && e.place >= 1 && Plain(e)
  {
    var c := WindowOf(f, lives, m, b);
    MonthIsShaped(c.value, lives[b - 1].status, f.activity(b, m.number));
  }

  lemma {:induction false} OthersNeverDraw(f: Facts, lives: seq<Life>, month: Month, e: Event)
    requires |lives| == |f.openedOn|
    ensures OnlyItsOwn(EventsIn(f, lives, month), e)
  {
    forall b | b != e.accountId ensures e !in EventsIn(f, lives, month)(b) {
      if e in EventsOf(f, lives, month, b) {
        EventsAreOwn(f, lives, month, b, e);
      }
    }
  }

  /** In the month it enters, an account that is not dormant draws its deposit once. */
  lemma {:induction false} EntryDraws(f: Facts, lives: seq<Life>, m: Month, a: nat, deposit: Event)
    requires |lives| == |f.openedOn| && f.Has(a) && OnlyOwnListed(f.cardIds, f.cards) && a in m.entered
    requires m.span.first <= m.span.last && f.openedOn[a - 1] <= m.span.last && f.terms[a - 1].openingBalance > 0
    requires lives[a - 1].closedOn.Some? ==>
               m.span.first <= lives[a - 1].closedOn.value && f.openedOn[a - 1] <= lives[a - 1].closedOn.value
    requires WindowOf(f, lives, m, a).Some? ==>
               OpeningEvents(WindowOf(f, lives, m, a).value, f.activity(a, m.number)) == [deposit]
    ensures multiset(EventsOf(f, lives, m, a))[deposit] == if lives[a - 1].status == Dormant then 0 else 1
  {
    var c := WindowOf(f, lives, m, a).value;
    assert Owned(f.cardIds[a - 1], f.cards, a);
    var events := EventsOf(f, lives, m, a);
    MonthIsShaped(c, lives[a - 1].status, f.activity(a, m.number));
    if lives[a - 1].status != Dormant {
      ShapedOnce(c, f.activity(a, m.number), events, deposit);
    }
  }

  lemma {:induction false} ShapedOnce(c: Context, d: MonthDraws, events: seq<Event>, deposit: Event)
    requires Shaped(c, d, events) && OpeningEvents(c, d) == [deposit]
    ensures multiset(events)[deposit] == 1
  {
    assert events == [deposit] + events[1..];
    assert deposit !in events[1..];
    assert deposit !in multiset(events[1..]);
  }

  /** In any later month its events fall after its opening day. */
  lemma {:induction false} LaterMonthsDoNot(f: Facts, lives: seq<Life>, m: Month, a: nat, deposit: Event)
    requires |lives| == |f.openedOn| && f.Has(a) && a !in m.entered
    requires deposit.day == f.openedOn[a - 1] < m.span.first
    ensures deposit !in EventsOf(f, lives, m, a)
  {
    var c := WindowOf(f, lives, m, a);
    if c.Some? && OwnCards(c.value) {
      MonthIsShaped(c.value, lives[a - 1].status, f.activity(a, m.number));
    }
  }

  /** What every account stands at once the month's attrition is decided. */
  ghost function Standing(f: Facts, spans: seq<Span>, m: nat): (lives: seq<Life>)
    requires m < |spans| && Nonempty(spans)
    ensures |lives| == |f.openedOn|
  {
    var p := Entering(f, spans, m);
    Decided(f, p.lives, MonthAt(f, spans, m), p.active)
  }

  lemma {:induction false} DrawnIfActive(f: Facts, spans: seq<Span>, start: int, m: nat, e: Event)
    requires Whole(f, spans, start) && Nonempty(spans) && m < |spans|
    ensures multiset(OwnEvents(f, spans, m))[e]
         == if e.accountId in Entering(f, spans, m).active
            then multiset(EventsOf(f, Standing(f, spans, m), MonthAt(f, spans, m), e.accountId))[e] else 0
  {
    var lives, month := Standing(f, spans, m), MonthAt(f, spans, m);
    EnteringIsSound(f, spans, start, m);
    OthersNeverDraw(f, lives, month, e);
    GatheredCount(EventsIn(f, lives, month), Entering(f, spans, m).active, e);
  }

  /** A new account's standing after the attrition of the month it enters in. */
  lemma {:induction false} StandsOnEntry(f: Facts, spans: seq<Span>, start: int, a: nat)
    requires Whole(f, spans, start) && Nonempty(spans) && f.Has(a)
    ensures var m := EntryOf(f, spans, a);
            Standing(f, spans, m)[a - 1] == Decide(Life(Active, None), f.openedOn[a - 1], HoldOf(f.holdUntil, a),
                                                   f.lifecycle(a, m), spans[m].first, spans[m].last)
  {
    EntersInItsMonth(f, spans, a);
    LivesUntilEntry(f, spans, start, a, EntryOf(f, spans, a));
  }

  lemma {:induction false} DrawnOnEntry(f: Facts, spans: seq<Span>, start: int, a: nat)
    requires Whole(f, spans, start) && Nonempty(spans) && f.Has(a) && f.terms[a - 1].openingBalance > 0
    ensures var m := EntryOf(f, spans, a);
            multiset(EventsOf(f, Standing(f, spans, m), MonthAt(f, spans, m), a))[DepositOf(f, spans, a)]
            == if DormantOnEntry(f, spans, a) then 0 else 1
  {
    var m := EntryOf(f, spans, a);
    StandsOnEntry(f, spans, start, a);
    EntersInItsMonth(f, spans, a);
    DormantOnEntryIsDecided(f, spans, a);
    EntryMonthBound(spans, start, f.anchorDay, f.openedOn[a - 1], m);
    EntryDraws(f, Standing(f, spans, m), MonthAt(f, spans, m), a, DepositOf(f, spans, a));
  }

  lemma {:induction false} NotDrawnLater(f: Facts, spans: seq<Span>, start: int, a: nat, m: nat)
    requires Whole(f, spans, start) && Nonempty(spans) && f.Has(a) && EntryOf(f, spans, a) < m < |spans|
    ensures DepositOf(f, spans, a) !in EventsOf(f, Standing(f, spans, m), MonthAt(f, spans, m), a)
  {
    var entry := EntryOf(f, spans, a);
    BucketsFileRight(f.openedOn, spans, |f.openedOn|);
    assert a !in MonthAt(f, spans, m).entered;
    EntryMonthBound(spans, start, f.anchorDay, f.openedOn[a - 1], entry);
    TilesAscend(spans, start, f.anchorDay, entry, m);
    LaterMonthsDoNot(f, Standing(f, spans, m), MonthAt(f, spans, m), a, DepositOf(f, spans, a));
  }

  /** How often the account's deposit is drawn in one month. */
  lemma {:induction false} DrawnInMonth(f: Facts, spans: seq<Span>, start: int, a: nat, m: nat)
    requires Whole(f, spans, start) && Nonempty(spans) && f.Has(a) && f.terms[a - 1].openingBalance > 0 && m < |spans|
    ensures multiset(OwnEvents(f, spans, m))[DepositOf(f, spans, a)]
         == if m == EntryOf(f, spans, a) && !DormantOnEntry(f, spans, a) then 1 else 0
  {
    var entry := EntryOf(f, spans, a);
    DrawnIfActive(f, spans, start, m, DepositOf(f, spans, a));
    if m < entry {
      NotActiveBeforeEntry(f, spans, start, a, m);
    } else if m == entry {
      EntersInItsMonth(f, spans, a);
      DrawnOnEntry(f, spans, start, a);
    } else {
      NotDrawnLater(f, spans, start, a, m);
    }
  }

  lemma {:induction false} DrawnSoFar(f: Facts, spans: seq<Span>, start: int, a: nat, n: nat)
    requires Whole(f, spans, start) && Nonempty(spans) && f.Has(a) && f.terms[a - 1].openingBalance > 0 && n <= |spans|
    ensures multiset(DrawnOver(f, spans, n))[DepositOf(f, spans, a)]
         == if EntryOf(f, spans, a) < n && !DormantOnEntry(f, spans, a) then 1 else 0
  {
    var deposit, entry := DepositOf(f, spans, a), EntryOf(f, spans, a);
    var count := if DormantOnEntry(f, spans, a) then 0 else 1;
    forall m | 0 <= m < n ensures multiset(Own(f, spans)(m))[deposit] == if m == entry then count else 0 {
      DrawnInMonth(f, spans, start, a, m);
    }
    JoinedCount(Own(f, spans), n, deposit, entry, count);
  }

  /** A run emits what accounts draw and the loans' cash flows, each as often as it is drawn or merged. */
  lemma {:induction false} EmittedCount(s: Setting, spans: seq<Span>, closedOn: seq<Option<int>>, book: Book, e: Event)
    requires Nonempty(spans) && Accounted(s, spans, closedOn, book) && e !in LoanEvents(s.cash)
    ensures multiset(Emitted(s.facts, s.cash, spans, |spans|))[e] == multiset(DrawnOver(s.facts, spans, |spans|))[e]
  {
    assert e !in multiset(LoanEvents(s.cash));
  }

  lemma {:induction false} NoLoanComesFirst(cash: seq<Lending.CashEvent>, e: Event)
    requires e.place != 0
    ensures e !in LoanEvents(cash)
  {
  }

  /** Over the whole run an account's opening deposit is emitted exactly once, or, exactly when the draws of the month
      it enters leave it dormant, never. */
  lemma {:induction false} DepositGoesOutUnlessDormantOnEntry(
    s: Setting, spans: seq<Span>, start: int, closedOn: seq<Option<int>>, book: Book, a: nat)
    requires Whole(s.facts, spans, start) && Nonempty(spans) && s.facts.Has(a)
             && s.facts.terms[a - 1].openingBalance > 0
    requires Accounted(s, spans, closedOn, book)
    ensures multiset(Emitted(s.facts, s.cash, spans, |spans|))[DepositOf(s.facts, spans, a)]
         == if DormantOnEntry(s.facts, spans, a) then 0 else 1
  {
    var deposit := DepositOf(s.facts, spans, a);
    DrawnSoFar(s.facts, spans, start, a, |spans|);
    NoLoanComesFirst(s.cash, deposit);
    EmittedCount(s, spans, closedOn, book, deposit);
  }

  /** One account, open from the first day of the only month, going dormant in it and perhaps closing on its last
      day. */
  function OneAccount(closes: bool): Facts {
    Facts([Terms(1, "current", "EUR", 100, 0, 0)], [1], [[]], [], map[], 31, 0,
          (a: nat, m: nat) => LifecycleDraw(true, false, false, closes, 30),
          (a: nat, m: nat) => MonthDraws(0, [], 0, [], None, [], []))
  }

  /** An account that goes dormant as it enters is never funded; one that closes in the same month as well is. */
  lemma {:induction false} DormancyLosesTheDepositClosureDoesNot()
    ensures var spans := [Span(1, 31, 1, 31)];
            && Nonempty(spans)
              && OneAccount(false).terms[0].openingBalance == OneAccount(true).terms[0].openingBalance == 100
            && DrawnOver(OneAccount(false), spans, 1) == []
            && multiset(DrawnOver(OneAccount(true), spans, 1))[DepositOf(OneAccount(true), spans, 1)] == 1
  {
    var spans := [Span(1, 31, 1, 31)];
    var dormant, closed := OneAccount(false), OneAccount(true);
    DrawnSoFar(closed, spans, 1, 1, 1);
    NothingElseIsDrawn(dormant, spans);
  }

  lemma {:induction false} NothingElseIsDrawn(f: Facts, spans: seq<Span>)
    requires f == OneAccount(false) && spans == [Span(1, 31, 1, 31)]
    ensures DrawnOver(f, spans, 1) == []
  {
    var p, month := Entering(f, spans, 0), MonthAt(f, spans, 0);
    assert Buckets(f.openedOn, spans, 1) == Filed(Buckets(f.openedOn, spans, 0), 0, 1);
    assert p.active == [1];
    var lives := Decided(f, p.lives, month, p.active);
    assert lives[0].status == Dormant;
    assert EventsOf(f, lives, month, 1) == [];
    GatheredNext(EventsIn(f, lives, month), [], 1);
    NextMonthJoins(f, [], spans, 0);
  }
}
