/** The movement pass: months outside, accounts inside, each month's events sorted and folded into the book. */
module Movements {
  import opened Rows
  import opened Calendar
  import opened Sorting
  import L = Ledger
  import opened Deposits
  import Lending
  import opened Emission
  import opened Books
  import opened Months
  import opened Activity
  import opened Plan

  /** A movement falls in its account's life: on or after opening, and not after closing. An account still open
      may close later, but only after the last day emitted so far and after its last loan day. */
  ghost predicate Lived(
    e: Event, openedOn: seq<int>, closedOn: seq<Option<int>>, holdUntil: map<nat, int>, lastDay: int)
    requires |openedOn| == |closedOn|
  {
    && 1 <= e.accountId <= |openedOn| && openedOn[e.accountId - 1] <= e.day
    && match closedOn[e.accountId - 1]
       case Some(day) => e.day <= day
       case None => e.day <= lastDay || (e.accountId in holdUntil && e.day <= holdUntil[e.accountId])
  }

  ghost predicate AllLived(
    events: seq<Event>, openedOn: seq<int>, closedOn: seq<Option<int>>, holdUntil: map<nat, int>, lastDay: int)
    requires |openedOn| == |closedOn|
  {
    forall i :: 0 <= i < |events| ==> Lived(events[i], openedOn, closedOn, holdUntil, lastDay)
  }

  /** How closures may change: none undone, and a new one only where `MayClose` allows it. */
  ghost predicate ClosuresStep(
    openedOn: seq<int>, before: seq<Option<int>>, after: seq<Option<int>>, holdUntil: map<nat, int>, first: int,
    last: int)
  {
    && |openedOn| == |before| == |after|
    && forall i :: 0 <= i < |openedOn| ==>
         after[i] == before[i]
         || (before[i].None? && MayClose(after[i], openedOn[i], HoldOf(holdUntil, i + 1), first, last))
  }

  /** Closing accounts before the month's movements never strands a movement already emitted. */
  lemma {:induction false} ClosuresKeepLived(
    events: seq<Event>, openedOn: seq<int>, before: seq<Option<int>>, after: seq<Option<int>>,
    holdUntil: map<nat, int>, lastDay: int, first: int, last: int)
    requires ClosuresStep(openedOn, before, after, holdUntil, first, last)
    requires lastDay < first && AllLived(events, openedOn, before, holdUntil, lastDay)
    ensures AllLived(events, openedOn, after, holdUntil, lastDay)
  {
    forall i | 0 <= i < |events| ensures Lived(events[i], openedOn, after, holdUntil, lastDay) {
      assert Lived(events[i], openedOn, before, holdUntil, lastDay);
    }
  }

  /** An event the month may emit. */
  ghost predicate Emittable(v: Vocabulary, cards: seq<CardRow>, accounts: nat, e: Event) {
    1 <= e.accountId <= accounts && KnownType(v, e) && CardUsable(e, cards)
  }

  ghost predicate AllEmittable(v: Vocabulary, cards: seq<CardRow>, accounts: nat, events: seq<Event>) {
    forall i :: 0 <= i < |events| ==> Emittable(v, cards, accounts, events[i])
  }

  /** Runs over two pieces are one run. */
  lemma {:induction false} RunConcat(rules: Rules, b: Book, one: seq<Event>, two: seq<Event>)
    requires forall i :: 0 <= i < |one| ==> Fits(rules, b, one[i])
    requires forall i :: 0 <= i < |two| ==> Fits(rules, b, two[i])
    ensures forall i :: 0 <= i < |one + two| ==> Fits(rules, b, (one + two)[i])
    ensures forall i :: 0 <= i < |two| ==> Fits(rules, Run(rules, b, one), two[i])
    ensures Run(rules, b, one + two) == Run(rules, Run(rules, b, one), two)
  {
    if two == [] {
      assert one + two == one;
    } else {
      var front, last := two[..|two| - 1], two[|two| - 1];
      RunConcat(rules, b, one, front);
      assert (one + two)[..|one + two| - 1] == one + front;
    }
  }

  /** Events of the book's accounts, of types the vocabulary knows. */
  ghost predicate CanEmit(rules: Rules, book: Book, events: seq<Event>) {
    forall i :: 0 <= i < |events| ==> Fits(rules, book, events[i]) && KnownType(rules.vocabulary, events[i])
  }

  /** Emits the month's events in order, numbering transactions and payments separately. */
  method EmitAll(rules: Rules, out: Outputs, events: seq<Event>, transactionId: nat, paymentId: nat)
    returns (lastTransaction: nat, lastPayment: nat)
    requires out.accounts.Valid() && rules.vocabulary.Sound()
    requires CanEmit(rules, out.View(), events)
    requires transactionId == |out.txns.rows| && paymentId == |out.pays.rows|
    modifies out.accounts`balance, out.accounts`updatedAt, out.ledger, out.txns, out.pays, out.stats
    ensures out.accounts.Valid() && out.View() == Run(rules, old(out.View()), events)
    ensures lastTransaction == |out.txns.rows| && lastPayment == |out.pays.rows|
  {
    lastTransaction, lastPayment := transactionId, paymentId;
    ghost var start := out.View();
    for i := 0 to |events|
      invariant out.accounts.Valid() && out.View() == Run(rules, start, events[..i])
      invariant lastTransaction == |out.txns.rows| && lastPayment == |out.pays.rows|
    {
      assert events[..i + 1][..i] == events[..i];
      assert Fits(rules, start, events[i]);
      if events[i].item.Transaction? {
        lastTransaction := lastTransaction + 1;
        EmitTransaction(rules, out, lastTransaction, events[i]);
      } else {
        lastPayment := lastPayment + 1;
        EmitPayment(rules, out, lastPayment, events[i]);
      }
    }
    assert events[..|events|] == events;
  }

  /** Merges the loan cash flows that have come due by the window's last day. */
  method MergeLoans(cash: seq<Lending.CashEvent>, cursor: nat, last: int, events: seq<Event>)
    returns (out: seq<Event>, next: nat)
    requires cursor <= |cash|
    ensures next == Due(cash, cursor, last) && out == events + LoanEvents(cash[cursor..next])
  {
    out, next := events, cursor;
    while next < |cash| && DayOf(cash[next].when) <= last
      invariant cursor <= next <= |cash| && out == events + LoanEvents(cash[cursor..next])
      invariant Due(cash, cursor, last) == Due(cash, next, last)
    {
      NextLoanEvent(events, cash, cursor, next);
      out := out + [LoanEvent(cash[next])];
      next := next + 1;
    }
  }

  lemma {:induction false} NextLoanEvent(events: seq<Event>, cash: seq<Lending.CashEvent>, cursor: nat, next: nat)
    requires cursor <= next < |cash|
    ensures events + LoanEvents(cash[cursor..next + 1])
            == events + LoanEvents(cash[cursor..next]) + [LoanEvent(cash[next])]
  {
    OneMoreLoan(cash[cursor..next], cash[next]);
    assert cash[cursor..next + 1] == cash[cursor..next] + [cash[next]];
  }

  lemma {:induction false} OneMoreLoan(cash: seq<Lending.CashEvent>, c: Lending.CashEvent)
    ensures LoanEvents(cash + [c]) == LoanEvents(cash) + [LoanEvent(c)]
  {
  }

  /** The account book is the one the run was set up for, and its accounts stand as given. */
  ghost predicate StandsAt(f: Facts, accounts: AccountBook, lives: seq<Life>)
    reads accounts
  {
    && accounts.Valid() && accounts.terms == f.terms && accounts.openedOn == f.openedOn && accounts.cardIds == f.cardIds
    && OnlyOwnListed(f.cardIds, f.cards) && lives == Lives(accounts.status, accounts.closedOn)
  }

  /** An active account's window of the month, or none when its opening and its closing leave no day. */
  method AccountWindow(
    f: Facts, accounts: AccountBook, m: Month, a: nat, ghost lives: seq<Life>) returns (c: Option<Context>)
    requires StandsAt(f, accounts, lives) && f.Has(a)
    ensures c == WindowOf(f, lives, m, a)
  {
    var index, closed := a - 1, accounts.closedOn[a - 1];
    if closed.Some? && closed.value < m.span.first {
      return None;
    }
    var last := if closed.Some? then Min(m.span.last, closed.value) else m.span.last;
    var first := Max(m.span.first, accounts.openedOn[index]);
    if first > last {
      return None;
    }
    return Some(Context(a, accounts.terms[index], accounts.openedOn[index], accounts.cardIds[index], f.cards,
                        m.span, first, last, a in m.entered, f.anchorDay, f.agents));
  }

  /** The window lies in the account's life, and holds its own cards. */
  lemma {:induction false} WindowIsOwn(f: Facts, lives: seq<Life>, m: Month, a: nat)
    requires |lives| == |f.openedOn| && f.Has(a) && OnlyOwnListed(f.cardIds, f.cards)
    ensures var w := WindowOf(f, lives, m, a);
            w.Some? ==> var c := w.value;
                        && OwnCards(c) && c.accountId == a && c.cards == f.cards
                        && c.openDay == f.openedOn[a - 1] <= c.first <= c.last <= m.span.last
                        && (lives[a - 1].closedOn.Some? ==> c.last <= lives[a - 1].closedOn.value)
  {
    assert Owned(f.cardIds[a - 1], f.cards, a);
  }

  /** One active account's month. */
  method AccountEvents(v: Vocabulary, f: Facts, accounts: AccountBook, m: Month, a: nat, ghost lives: seq<Life>)
    returns (own: seq<Event>)
    requires StandsAt(f, accounts, lives) && f.Has(a) && KnownTypes(v, f.activity(a, m.number))
    ensures own == EventsOf(f, lives, m, a)
    ensures Drawn(own, v, f.cards, f.openedOn, accounts.closedOn, f.holdUntil, m.span.last)
  {
    var c := AccountWindow(f, accounts, m, a, lives);
    WindowIsOwn(f, lives, m, a);
    if c.None? {
      return [];
    }
    assert lives[a - 1] == Life(accounts.status[a - 1], accounts.closedOn[a - 1]);
    own := AccountMonth(c.value, accounts.status[a - 1], f.activity(a, m.number), v);
    OwnEventsLived(c.value, v, own, accounts.openedOn, accounts.closedOn, f.holdUntil, m.span.last);
  }

  /** Every active account's month, and the accounts that stay active after it. */
  method MonthEvents(v: Vocabulary, f: Facts, accounts: AccountBook, m: Month, active: seq<nat>, ghost lives: seq<Life>)
    returns (events: seq<Event>, still: seq<nat>)
    requires StandsAt(f, accounts, lives) && forall i :: 0 <= i < |active| ==> f.Has(active[i])
    requires forall a, n :: KnownTypes(v, f.activity(a, n))
    ensures events == ActiveEvents(f, lives, m, active) && still == StillOpen(lives, active)
    ensures Drawn(events, v, f.cards, f.openedOn, accounts.closedOn, f.holdUntil, m.span.last)
  {
    events, still := [], [];
    ghost var own := EventsIn(f, lives, m);
    for n := 0 to |active|
      invariant MonthSoFar(v, f, own, m.span.last, lives, accounts.closedOn, active[..n], events, still)
    {
      TakeNext(active, n);
      events, still := NextAccount(v, f, accounts, m, active[..n], active[n], events, still, lives);
    }
    assert active[..|active|] == active;
  }

  lemma {:induction false} TakeNext(ids: seq<nat>, n: nat)
    requires n < |ids|
    ensures ids[..n + 1] == ids[..n] + [ids[n]]
  {
  }

  /** What the accounts of a list have drawn, and which of them stay active. */
  ghost predicate MonthSoFar(
    v: Vocabulary, f: Facts, own: nat -> seq<Event>, lastDay: int, lives: seq<Life>, closedOn: seq<Option<int>>,
    active: seq<nat>, events: seq<Event>, still: seq<nat>)
  {
    && events == Gathered(own, active) && still == StillOpen(lives, active)
    && Drawn(events, v, f.cards, f.openedOn, closedOn, f.holdUntil, lastDay)
  }

  /** One turn of the account loop. */
  method NextAccount(
    v: Vocabulary, f: Facts, accounts: AccountBook, m: Month, ghost earlier: seq<nat>, a: nat, before: seq<Event>,
    stillBefore: seq<nat>, ghost lives: seq<Life>)
    returns (events: seq<Event>, still: seq<nat>)
    requires StandsAt(f, accounts, lives) && f.Has(a) && KnownTypes(v, f.activity(a, m.number))
    requires MonthSoFar(v, f, EventsIn(f, lives, m), m.span.last, lives, accounts.closedOn, earlier, before,
                        stillBefore)
    ensures MonthSoFar(v, f, EventsIn(f, lives, m), m.span.last, lives, accounts.closedOn, earlier + [a], events, still)
  {
    still := if accounts.closedOn[a - 1].None? then stillBefore + [a] else stillBefore;
    var drawn := AccountEvents(v, f, accounts, m, a, lives);
    events := before + drawn;
    NextSoFar(v, f, EventsIn(f, lives, m), m.span.last, lives, accounts.closedOn, earlier, a, before, stillBefore,
              drawn);
  }

  lemma {:induction false} NextSoFar(
    v: Vocabulary, f: Facts, own: nat -> seq<Event>, lastDay: int, lives: seq<Life>, closedOn: seq<Option<int>>,
    earlier: seq<nat>, a: nat, before: seq<Event>, stillBefore: seq<nat>, drawn: seq<Event>)
    requires 1 <= a <= |lives| == |closedOn| && lives[a - 1].closedOn == closedOn[a - 1] && drawn == own(a)
    requires MonthSoFar(v, f, own, lastDay, lives, closedOn, earlier, before, stillBefore)
    requires Drawn(drawn, v, f.cards, f.openedOn, closedOn, f.holdUntil, lastDay)
    ensures MonthSoFar(v, f, own, lastDay, lives, closedOn, earlier + [a], before + drawn,
                       if closedOn[a - 1].None? then stillBefore + [a] else stillBefore)
  {
    GatheredNext(own, earlier, a);
    StillOpenNext(lives, earlier, a);
    MoreDrawn(before, drawn, v, f.cards, f.openedOn, closedOn, f.holdUntil, lastDay);
  }

  /** Emittable events, each in its account's life. */
  ghost predicate Drawn(
    events: seq<Event>, v: Vocabulary, cards: seq<CardRow>, openedOn: seq<int>, closedOn: seq<Option<int>>,
    holdUntil: map<nat, int>, lastDay: int)
  {
    && |openedOn| == |closedOn| && AllEmittable(v, cards, |openedOn|, events)
    && AllLived(events, openedOn, closedOn, holdUntil, lastDay)
  }

  lemma {:induction false} MoreDrawn(
    events: seq<Event>, own: seq<Event>, v: Vocabulary, cards: seq<CardRow>, openedOn: seq<int>,
    closedOn: seq<Option<int>>, holdUntil: map<nat, int>, lastDay: int)
    requires Drawn(events, v, cards, openedOn, closedOn, holdUntil, lastDay)
    requires Drawn(own, v, cards, openedOn, closedOn, holdUntil, lastDay)
    ensures Drawn(events + own, v, cards, openedOn, closedOn, holdUntil, lastDay)
  {
  }

  lemma {:induction false} OwnEventsLived(
    c: Context, v: Vocabulary, own: seq<Event>, openedOn: seq<int>, closedOn: seq<Option<int>>,
    holdUntil: map<nat, int>, lastDay: int)
    requires AllProper(c, v, own) && |openedOn| == |closedOn| && 1 <= c.accountId <= |openedOn|
    requires c.openDay == openedOn[c.accountId - 1] <= c.first <= c.last <= lastDay
    requires closedOn[c.accountId - 1].Some? ==> c.last <= closedOn[c.accountId - 1].value
    ensures AllLived(own, openedOn, closedOn, holdUntil, lastDay)
    ensures AllEmittable(v, c.cards, |openedOn|, own)
  {
    forall i | 0 <= i < |own|
      ensures Lived(own[i], openedOn, closedOn, holdUntil, lastDay) && Emittable(v, c.cards, |openedOn|, own[i])
    {
      assert Proper(c, v, own[i]);
    }
  }

  /** A loan cash flow lands in its account's life and on or before the account's last loan day. */
  ghost predicate LoanHeld(c: Lending.CashEvent, openedOn: seq<int>, holdUntil: map<nat, int>, anchorDay: int) {
    && 1 <= c.accountId <= |openedOn| && openedOn[c.accountId - 1] <= DayOf(c.when) <= anchorDay
    && c.accountId in holdUntil && DayOf(c.when) <= holdUntil[c.accountId]
  }

  ghost predicate LoansHeld(
    cash: seq<Lending.CashEvent>, openedOn: seq<int>, holdUntil: map<nat, int>, anchorDay: int)
  {
    forall i :: 0 <= i < |cash| ==> LoanHeld(cash[i], openedOn, holdUntil, anchorDay)
  }

  /** No account is closed on or before its last loan day. */
  ghost predicate HoldsRespected(closedOn: seq<Option<int>>, holdUntil: map<nat, int>) {
    forall i :: 0 <= i < |closedOn| && closedOn[i].Some? && i + 1 in holdUntil ==> holdUntil[i + 1] < closedOn[i].value
  }

  lemma {:induction false} LoansAreLived(
    cash: seq<Lending.CashEvent>, from: nat, to: nat, v: Vocabulary, cards: seq<CardRow>, openedOn: seq<int>,
    closedOn: seq<Option<int>>, holdUntil: map<nat, int>, anchorDay: int, lastDay: int)
    requires from <= to <= |cash| && |openedOn| == |closedOn|
    requires LoansHeld(cash, openedOn, holdUntil, anchorDay) && HoldsRespected(closedOn, holdUntil)
    requires "transfer_in" in v.txnDirection && "direct_debit" in v.txnDirection
    ensures AllLived(LoanEvents(cash[from..to]), openedOn, closedOn, holdUntil, lastDay)
    ensures AllEmittable(v, cards, |openedOn|, LoanEvents(cash[from..to]))
  {
    forall i | 0 <= i < to - from
      ensures Lived(LoanEvents(cash[from..to])[i], openedOn, closedOn, holdUntil, lastDay)
      ensures Emittable(v, cards, |openedOn|, LoanEvents(cash[from..to])[i])
    {
      assert LoanHeld(cash[from + i], openedOn, holdUntil, anchorDay);
    }
  }

  /** Sorting keeps what is true of every event. */
  lemma {:induction false} SortKeepsEvents(
    sorted: seq<Event>, events: seq<Event>, v: Vocabulary, cards: seq<CardRow>, openedOn: seq<int>,
    closedOn: seq<Option<int>>, holdUntil: map<nat, int>, lastDay: int)
    requires multiset(sorted) == multiset(events) && |openedOn| == |closedOn|
    requires AllLived(events, openedOn, closedOn, holdUntil, lastDay) && AllEmittable(v, cards, |openedOn|, events)
    ensures AllLived(sorted, openedOn, closedOn, holdUntil, lastDay) && AllEmittable(v, cards, |openedOn|, sorted)
  {
    forall i | 0 <= i < |sorted|
      ensures Lived(sorted[i], openedOn, closedOn, holdUntil, lastDay) && Emittable(v, cards, |openedOn|, sorted[i])
    {
      SameMembers(sorted, events, sorted[i]);
    }
  }

  /** What a run is given and never changes. */
  datatype Setting = Setting(rules: Rules, cash: seq<Lending.CashEvent>, facts: Facts)

  /** How far a run has got: the book is the run of what was emitted, every event so far was emitted once, and
      every one of them lies in its account's life. */
  ghost predicate RunState(
    s: Setting, closedOn: seq<Option<int>>, book: Book, cursor: nat, lastDay: int, emitted: seq<Event>,
    drawn: seq<Event>)
  {
    && |closedOn| == |s.facts.openedOn| == |s.rules.limits| && s.rules.vocabulary.Sound()
    && Drawn(emitted, s.rules.vocabulary, s.facts.cards, s.facts.openedOn, closedOn, s.facts.holdUntil, lastDay)
      && AllFit(s.rules, emitted)
    && book == Run(s.rules, Empty(|s.rules.limits|), emitted)
    && HoldsRespected(closedOn, s.facts.holdUntil)
    && cursor <= |s.cash| && multiset(emitted) == multiset(drawn) + multiset(LoanEvents(s.cash[..cursor]))
  }

  /** The account book is the one the run was set up for. */
  predicate Over(s: Setting, accounts: AccountBook)
    reads accounts
  {
    && accounts.Valid() && accounts.terms == s.facts.terms && accounts.openedOn == s.facts.openedOn
    && accounts.cardIds == s.facts.cardIds && accounts.overdraft == s.rules.limits
  }

  ghost predicate AllFit(rules: Rules, events: seq<Event>) {
    forall i :: 0 <= i < |events| ==> Fits(rules, Empty(|rules.limits|), events[i])
  }

  /** The month's own events and the loans merged into them, sorted, extend the run. */
  lemma {:induction false} MonthExtendsRun(
    s: Setting, closedOn: seq<Option<int>>, book: Book, cursor: nat, next: nat, lastDay: int, last: int,
    emitted: seq<Event>, drawn: seq<Event>, events: seq<Event>, sorted: seq<Event>)
    requires RunState(s, closedOn, book, cursor, lastDay, emitted, drawn) && lastDay <= last
    requires LoansHeld(s.cash, s.facts.openedOn, s.facts.holdUntil, s.facts.anchorDay) && cursor <= next <= |s.cash|
    requires "transfer_in" in s.rules.vocabulary.txnDirection && "direct_debit" in s.rules.vocabulary.txnDirection
    requires Drawn(events, s.rules.vocabulary, s.facts.cards, s.facts.openedOn, closedOn, s.facts.holdUntil, last)
    requires multiset(sorted) == multiset(events + LoanEvents(s.cash[cursor..next]))
    ensures CanEmit(s.rules, book, sorted)
    ensures RunState(s, closedOn, Run(s.rules, book, sorted), next, last, emitted + sorted, drawn + events)
  {
    var v := s.rules.vocabulary;
    SortedMonthDrawn(s, closedOn, cursor, next, last, events, sorted);
    StillDrawnLater(emitted, v, s.facts.cards, s.facts.openedOn, closedOn, s.facts.holdUntil, lastDay, last);
    MoreDrawn(emitted, sorted, v, s.facts.cards, s.facts.openedOn, closedOn, s.facts.holdUntil, last);
    FitsEmittable(s.rules, s.facts.cards, sorted);
    FitsEmittable(s.rules, s.facts.cards, emitted + sorted);
    RunConcat(s.rules, Empty(|s.rules.limits|), emitted, sorted);
    EachOnce(s.cash, cursor, next, emitted, drawn, events, sorted);
    EmittableCanEmit(s.rules, book, s.facts.cards, sorted);
  }

  lemma {:induction false} EmittableCanEmit(rules: Rules, book: Book, cards: seq<CardRow>, events: seq<Event>)
    requires AllEmittable(rules.vocabulary, cards, |rules.limits|, events) && |book.balance| == |rules.limits|
    ensures CanEmit(rules, book, events)
  {
    forall i | 0 <= i < |events| ensures Fits(rules, book, events[i]) && KnownType(rules.vocabulary, events[i]) {
      assert Emittable(rules.vocabulary, cards, |rules.limits|, events[i]);
    }
  }

  lemma {:induction false} SortedMonthDrawn(
    s: Setting, closedOn: seq<Option<int>>, cursor: nat, next: nat, last: int, events: seq<Event>, sorted: seq<Event>)
    requires |closedOn| == |s.facts.openedOn| && HoldsRespected(closedOn, s.facts.holdUntil)
             && cursor <= next <= |s.cash|
    requires LoansHeld(s.cash, s.facts.openedOn, s.facts.holdUntil, s.facts.anchorDay)
    requires "transfer_in" in s.rules.vocabulary.txnDirection && "direct_debit" in s.rules.vocabulary.txnDirection
    requires Drawn(events, s.rules.vocabulary, s.facts.cards, s.facts.openedOn, closedOn, s.facts.holdUntil, last)
    requires multiset(sorted) == multiset(events + LoanEvents(s.cash[cursor..next]))
    ensures Drawn(sorted, s.rules.vocabulary, s.facts.cards, s.facts.openedOn, closedOn, s.facts.holdUntil, last)
  {
    var v, loans := s.rules.vocabulary, LoanEvents(s.cash[cursor..next]);
    LoansAreLived(s.cash, cursor, next, v, s.facts.cards, s.facts.openedOn, closedOn, s.facts.holdUntil,
                  s.facts.anchorDay, last);
    MoreDrawn(events, loans, v, s.facts.cards, s.facts.openedOn, closedOn, s.facts.holdUntil, last);
    SortKeepsEvents(sorted, events + loans, v, s.facts.cards, s.facts.openedOn, closedOn, s.facts.holdUntil, last);
  }

  lemma {:induction false} StillDrawnLater(
    events: seq<Event>, v: Vocabulary, cards: seq<CardRow>, openedOn: seq<int>, closedOn: seq<Option<int>>,
    holdUntil: map<nat, int>, lastDay: int, later: int)
    requires Drawn(events, v, cards, openedOn, closedOn, holdUntil, lastDay) && lastDay <= later
    ensures Drawn(events, v, cards, openedOn, closedOn, holdUntil, later)
  {
    forall i | 0 <= i < |events| ensures Lived(events[i], openedOn, closedOn, holdUntil, later) {
      assert Lived(events[i], openedOn, closedOn, holdUntil, lastDay);
    }
  }

  /** Every event of the month, and every loan cash flow merged into it, joins the emitted ones exactly once. */
  lemma {:induction false} EachOnce(
    cash: seq<Lending.CashEvent>, cursor: nat, next: nat, emitted: seq<Event>, drawn: seq<Event>, events: seq<Event>,
    sorted: seq<Event>)
    requires cursor <= next <= |cash| && multiset(emitted) == multiset(drawn) + multiset(LoanEvents(cash[..cursor]))
    requires multiset(sorted) == multiset(events + LoanEvents(cash[cursor..next]))
    ensures multiset(emitted + sorted) == multiset(drawn + events) + multiset(LoanEvents(cash[..next]))
  {
    LoanEventsSplit(cash, cursor, next);
  }

  /** Folds one month's events, loans included, into the book. */
  method EmitMonth(
    s: Setting, out: Outputs, cursor: nat, ghost lastDay: int, last: int, events: seq<Event>,
    transactionId: nat, paymentId: nat, ghost emitted: seq<Event>, ghost drawn: seq<Event>)
    returns (next: nat, lastTransaction: nat, lastPayment: nat, ghost sorted: seq<Event>)
    requires Over(s, out.accounts) && LoansHeld(s.cash, s.facts.openedOn, s.facts.holdUntil, s.facts.anchorDay)
    requires RunState(s, out.accounts.closedOn, out.View(), cursor, lastDay, emitted, drawn) && lastDay <= last
    requires "transfer_in" in s.rules.vocabulary.txnDirection && "direct_debit" in s.rules.vocabulary.txnDirection
    requires Drawn(events, s.rules.vocabulary, s.facts.cards, s.facts.openedOn, out.accounts.closedOn,
                   s.facts.holdUntil, last)
    requires transactionId == |out.txns.rows| && paymentId == |out.pays.rows|
    modifies out.accounts`balance, out.accounts`updatedAt, out.ledger, out.txns, out.pays, out.stats
    ensures Over(s, out.accounts)
    ensures RunState(s, out.accounts.closedOn, out.View(), next, last, emitted + sorted, drawn + events)
    ensures next == Due(s.cash, cursor, last)
    ensures sorted == SortedBy(events + LoanEvents(s.cash[cursor..next]), EventKey())
    ensures lastTransaction == |out.txns.rows| && lastPayment == |out.pays.rows|
  {
    var all, merged := MergeLoans(s.cash, cursor, last, events);
    next := merged;
    var ordered := Sorted(all, EventKey());
    sorted := ordered;
    MonthExtendsRun(s, out.accounts.closedOn, out.View(), cursor, next, lastDay, last, emitted, drawn, events, ordered);
    lastTransaction, lastPayment := EmitAll(s.rules, out, ordered, transactionId, paymentId);
  }

  lemma {:induction false} FitsEmittable(rules: Rules, cards: seq<CardRow>, events: seq<Event>)
    requires AllEmittable(rules.vocabulary, cards, |rules.limits|, events)
    ensures AllFit(rules, events)
  {
    forall i | 0 <= i < |events| ensures Fits(rules, Empty(|rules.limits|), events[i]) {
      assert Emittable(rules.vocabulary, cards, |rules.limits|, events[i]);
    }
  }

  lemma {:induction false} LoanEventsSplit(cash: seq<Lending.CashEvent>, cursor: nat, next: nat)
    requires cursor <= next <= |cash|
    ensures LoanEvents(cash[..next]) == LoanEvents(cash[..cursor]) + LoanEvents(cash[cursor..next])
  {
  }

  /** The closures a month's attrition makes are the ones `MayClose` allows. */
  lemma {:induction false} AttritionIsClosuresStep(
    f: Facts, before: seq<Life>, m: Month, active: seq<nat>, closedBefore: seq<Option<int>>,
    closedAfter: seq<Option<int>>)
    requires |f.openedOn| == |before| == |closedBefore| == |closedAfter| && m.span.first <= m.span.last
    requires forall i :: 0 <= i < |before| ==>
               before[i].closedOn == closedBefore[i] && Decided(f, before, m, active)[i].closedOn == closedAfter[i]
    ensures ClosuresStep(f.openedOn, closedBefore, closedAfter, f.holdUntil, m.span.first, m.span.last)
  {
    forall i | 0 <= i < |f.openedOn|
      ensures closedAfter[i] == closedBefore[i]
              || (closedBefore[i].None?
                  && MayClose(closedAfter[i], f.openedOn[i], HoldOf(f.holdUntil, i + 1), m.span.first, m.span.last))
    {
      assert Decided(f, before, m, active)[i].closedOn == closedAfter[i];
    }
  }

  /** Closures inside the history, never within thirty days of opening. */
  ghost predicate ClosuresSound(openedOn: seq<int>, closedOn: seq<Option<int>>, lastDay: int)
    requires |openedOn| == |closedOn|
  {
    forall i :: 0 <= i < |closedOn| && closedOn[i].Some? ==> openedOn[i] + 30 <= closedOn[i].value <= lastDay
  }

  /** The month's attrition, decided account by account. */
  method Attrition(f: Facts, accounts: AccountBook, m: Month, active: seq<nat>, ghost lives: seq<Life>)
    requires StandsAt(f, accounts, lives) && Distinct(active) && m.span.first <= m.span.last
    requires forall i :: 0 <= i < |active| ==> f.Has(active[i])
    modifies accounts`status, accounts`closedOn, accounts`updatedAt
    ensures StandsAt(f, accounts, Decided(f, lives, m, active))
    ensures ClosuresStep(f.openedOn, old(accounts.closedOn), accounts.closedOn, f.holdUntil, m.span.first, m.span.last)
  {
    MonthAttrition(accounts, active, m.number, m.span.first, m.span.last, f.lifecycle, f.holdUntil);
    assert Lives(accounts.status, accounts.closedOn) == Decided(f, lives, m, active) by {
      forall i | 0 <= i < |f.openedOn|
        ensures Life(accounts.status[i], accounts.closedOn[i]) == Decided(f, lives, m, active)[i]
      {
        assert StandingOf(accounts, i).life == Life(accounts.status[i], accounts.closedOn[i]);
      }
    }
    AttritionIsClosuresStep(f, lives, m, active, old(accounts.closedOn), accounts.closedOn);
  }

  /** Decides the month's closures and keeps the run's state. */
  method CloseAccounts(
    s: Setting, out: Outputs, ghost cursor: nat, ghost lastDay: int, m: Month, active: seq<nat>, ghost lives: seq<Life>,
    ghost emitted: seq<Event>, ghost drawn: seq<Event>)
    requires Over(s, out.accounts) && RunState(s, out.accounts.closedOn, out.View(), cursor, lastDay, emitted, drawn)
    requires StandsAt(s.facts, out.accounts, lives) && OpenIn(active, s.facts.openedOn, m.span.last)
    requires lastDay < m.span.first <= m.span.last && ClosuresSound(s.facts.openedOn, out.accounts.closedOn, lastDay)
    modifies out.accounts`status, out.accounts`closedOn, out.accounts`updatedAt
    ensures Over(s, out.accounts) && RunState(s, out.accounts.closedOn, out.View(), cursor, lastDay, emitted, drawn)
    ensures StandsAt(s.facts, out.accounts, Decided(s.facts, lives, m, active))
    ensures ClosuresSound(s.facts.openedOn, out.accounts.closedOn, m.span.last)
  {
    ghost var closedBefore := out.accounts.closedOn;
    Attrition(s.facts, out.accounts, m, active, lives);
    ClosuresKeepState(s, closedBefore, out.accounts.closedOn, out.View(), cursor, lastDay, m.span, emitted, drawn);
  }

  lemma {:induction false} ClosuresKeepState(
    s: Setting, before: seq<Option<int>>, after: seq<Option<int>>, book: Book, cursor: nat, lastDay: int, span: Span,
    emitted: seq<Event>, drawn: seq<Event>)
    requires RunState(s, before, book, cursor, lastDay, emitted, drawn) && lastDay < span.first <= span.last
    requires ClosuresStep(s.facts.openedOn, before, after, s.facts.holdUntil, span.first, span.last)
    requires ClosuresSound(s.facts.openedOn, before, lastDay)
    ensures RunState(s, after, book, cursor, lastDay, emitted, drawn)
    ensures ClosuresSound(s.facts.openedOn, after, span.last)
  {
    ClosuresKeepLived(emitted, s.facts.openedOn, before, after, s.facts.holdUntil, lastDay, span.first, span.last);
  }

  /** Distinct accounts of the book, all open by the month's last day. */
  ghost predicate OpenIn(active: seq<nat>, openedOn: seq<int>, last: int) {
    Distinct(active)
    && forall i :: 0 <= i < |active| ==> 1 <= active[i] <= |openedOn| && openedOn[active[i] - 1] <= last
  }

  /** Who is active when month `m` begins: accounts already entered, each at most once. */
  ghost predicate ActiveSound(active: seq<nat>, buckets: seq<seq<nat>>, openedOn: seq<int>, spans: seq<Span>, m: nat)
    requires spans != []
  {
    && m <= |buckets| && multiset(active) <= multiset(Flat(buckets[..m])) && EnteredBefore(active, openedOn, spans, m)
  }

  /** Accounts filed under months before `m`, each of them in the book. */
  ghost predicate EnteredBefore(ids: seq<nat>, openedOn: seq<int>, spans: seq<Span>, m: nat)
    requires spans != []
  {
    forall i :: 0 <= i < |ids| ==> 1 <= ids[i] <= |openedOn| && EntryMonth(spans, openedOn[ids[i] - 1]) < m
  }

  lemma {:induction false} BucketEntered(buckets: seq<seq<nat>>, openedOn: seq<int>, spans: seq<Span>, m: nat)
    requires spans != [] && m < |buckets| && FiledRight(buckets, openedOn, spans, |openedOn|)
    ensures EnteredBefore(buckets[m], openedOn, spans, m + 1)
  {
  }

  lemma {:induction false} MoreEntered(one: seq<nat>, two: seq<nat>, openedOn: seq<int>, spans: seq<Span>, m: nat)
    requires spans != [] && EnteredBefore(one, openedOn, spans, m) && EnteredBefore(two, openedOn, spans, m + 1)
    ensures EnteredBefore(one + two, openedOn, spans, m + 1)
  {
    forall i | 0 <= i < |one + two|
      ensures 1 <= (one + two)[i] <= |openedOn| && EntryMonth(spans, openedOn[(one + two)[i] - 1]) < m + 1
    {
      assert (one + two)[i] == if i < |one| then one[i] else two[i - |one|];
    }
  }

  lemma {:induction false} EnteredOnce(active: seq<nat>, buckets: seq<seq<nat>>, m: nat)
    requires m < |buckets| && multiset(active) <= multiset(Flat(buckets[..m]))
    ensures multiset(active + buckets[m]) <= multiset(Flat(buckets[..m + 1]))
  {
    FlatNext(buckets, m);
  }

  lemma {:induction false} EnteredMonths(
    active: seq<nat>, buckets: seq<seq<nat>>, openedOn: seq<int>, spans: seq<Span>, m: nat)
    requires spans != [] && m < |buckets|
    requires ActiveSound(active, buckets, openedOn, spans, m) && FiledRight(buckets, openedOn, spans, |openedOn|)
    ensures ActiveSound(active + buckets[m], buckets, openedOn, spans, m + 1)
  {
    EnteredOnce(active, buckets, m);
    BucketEntered(buckets, openedOn, spans, m);
    MoreEntered(active, buckets[m], openedOn, spans, m);
  }

  lemma {:induction false} OpenByMonthEnd(
    ids: seq<nat>, openedOn: seq<int>, spans: seq<Span>, m: nat, start: int, end: int)
    requires Tiles(spans, start, end) && m < |spans| && EnteredBefore(ids, openedOn, spans, m + 1) && Distinct(ids)
    requires forall i :: 0 <= i < |openedOn| ==> openedOn[i] <= end
    ensures OpenIn(ids, openedOn, spans[m].last)
  {
    forall i | 0 <= i < |ids| ensures openedOn[ids[i] - 1] <= spans[m].last {
      EntryMonthBound(spans, start, end, openedOn[ids[i] - 1], m);
    }
  }

  lemma {:induction false} EnteredDistinct(active: seq<nat>, buckets: seq<seq<nat>>, n: nat, m: nat)
    requires m <= |buckets| && multiset(active) <= multiset(Flat(buckets[..m]))
    requires multiset(Flat(buckets)) == multiset(Ids(n))
    ensures Distinct(active)
  {
    FlatPrefix(buckets, m);
    DistinctFromIds(active, n);
  }

  /** Accounts opening in a month join without repetition, and every active account is open by its last day. */
  lemma {:induction false} EnterMonth(
    active: seq<nat>, buckets: seq<seq<nat>>, openedOn: seq<int>, spans: seq<Span>, m: nat, start: int, end: int)
    requires Tiles(spans, start, end) && |buckets| == |spans| && m < |spans|
    requires ActiveSound(active, buckets, openedOn, spans, m) && FiledRight(buckets, openedOn, spans, |openedOn|)
    requires multiset(Flat(buckets)) == multiset(Ids(|openedOn|))
    requires forall i :: 0 <= i < |openedOn| ==> openedOn[i] <= end
    ensures ActiveSound(active + buckets[m], buckets, openedOn, spans, m + 1)
    ensures OpenIn(active + buckets[m], openedOn, spans[m].last)
  {
    EnteredMonths(active, buckets, openedOn, spans, m);
    EnteredDistinct(active + buckets[m], buckets, |openedOn|, m + 1);
    OpenByMonthEnd(active + buckets[m], openedOn, spans, m, start, end);
  }

  lemma {:induction false} AllMerged(
    cash: seq<Lending.CashEvent>, cursor: nat, openedOn: seq<int>, holdUntil: map<nat, int>, anchorDay: int)
    requires cursor <= |cash| && LoansHeld(cash, openedOn, holdUntil, anchorDay)
    requires cursor < |cash| ==> DayOf(cash[cursor].when) > anchorDay
    ensures cursor == |cash|
  {
    assert cursor < |cash| ==> LoanHeld(cash[cursor], openedOn, holdUntil, anchorDay);
  }

  lemma {:induction false} StayingKeepsActive(
    still: seq<nat>, active: seq<nat>, buckets: seq<seq<nat>>, openedOn: seq<int>, spans: seq<Span>, m: nat)
    requires spans != [] && ActiveSound(active, buckets, openedOn, spans, m) && multiset(still) <= multiset(active)
    ensures ActiveSound(still, buckets, openedOn, spans, m)
  {
    forall i | 0 <= i < |still|
      ensures 1 <= still[i] <= |openedOn| && EntryMonth(spans, openedOn[still[i] - 1]) < m
    {
      assert still[i] in multiset(still);
      assert still[i] in active;
    }
  }

  /** What the source demands of the book, the vocabulary and the loan flows it is given. */
  ghost predicate Ready(s: Setting) {
    var v, f := s.rules.vocabulary, s.facts;
    && v.Sound() && "transfer_in" in v.txnDirection && "direct_debit" in v.txnDirection
    && (forall a, m :: KnownTypes(v, f.activity(a, m)))
    && CardsSound(f.openedOn, f.cardIds, f.cards, f.anchorDay)
    && (forall i :: 0 <= i < |f.openedOn| ==> f.openedOn[i] <= f.anchorDay)
    && LoansHeld(s.cash, f.openedOn, f.holdUntil, f.anchorDay)
  }

  /** One turn of the month loop: close, draw, merge, sort, emit. */
  method OneMonth(
    s: Setting, out: Outputs, m: Month, active: seq<nat>, cursor: nat, transactionId: nat, paymentId: nat,
    ghost lives: seq<Life>, ghost lastDay: int, ghost emitted: seq<Event>, ghost drawn: seq<Event>)
    returns (still: seq<nat>, next: nat, lastTransaction: nat, lastPayment: nat, ghost sorted: seq<Event>)
    requires Ready(s) && Over(s, out.accounts) && OpenIn(active, s.facts.openedOn, m.span.last)
    requires StandsAt(s.facts, out.accounts, lives)
    requires RunState(s, out.accounts.closedOn, out.View(), cursor, lastDay, emitted, drawn)
    requires lastDay < m.span.first <= m.span.last && ClosuresSound(s.facts.openedOn, out.accounts.closedOn, lastDay)
    requires transactionId == |out.txns.rows| && paymentId == |out.pays.rows|
    modifies out.accounts`status, out.accounts`closedOn, out.accounts`balance, out.accounts`updatedAt
    modifies out.ledger, out.txns, out.pays, out.stats
    ensures Over(s, out.accounts)
    ensures var p := AfterMonth(s.facts, Progress(active, lives), m);
            still == p.active && StandsAt(s.facts, out.accounts, p.lives)
    ensures var own := ActiveEvents(s.facts, Decided(s.facts, lives, m, active), m, active);
            && next == Due(s.cash, cursor, m.span.last)
            && sorted == SortedBy(own + LoanEvents(s.cash[cursor..next]), EventKey())
            && RunState(s, out.accounts.closedOn, out.View(), next, m.span.last, emitted + sorted, drawn + own)
    ensures ClosuresSound(s.facts.openedOn, out.accounts.closedOn, m.span.last)
    ensures lastTransaction == |out.txns.rows| && lastPayment == |out.pays.rows|
  {
    CloseAccounts(s, out, cursor, lastDay, m, active, lives, emitted, drawn);
    ghost var decided := Decided(s.facts, lives, m, active);
    var events, remaining := MonthEvents(s.rules.vocabulary, s.facts, out.accounts, m, active, decided);
    still := remaining;
    next, lastTransaction, lastPayment, sorted :=
      EmitMonth(s, out, cursor, lastDay, m.span.last, events, transactionId, paymentId, emitted, drawn);
  }

  function LastDay(spans: seq<Span>, start: int, m: nat): int
    requires m <= |spans|
  {
    if m == 0 then start - 1 else spans[m - 1].last
  }

  /** The months and the accounts filed under them. */
  ghost predicate Filing(s: Setting, spans: seq<Span>, start: int, buckets: seq<seq<nat>>) {
    && Tiles(spans, start, s.facts.anchorDay) && |buckets| == |spans|
    && buckets == Buckets(s.facts.openedOn, spans, |s.facts.openedOn|)
    && FiledRight(buckets, s.facts.openedOn, spans, |s.facts.openedOn|)
      && multiset(Flat(buckets)) == multiset(Ids(|s.facts.openedOn|))
  }

  /** Where the loop stands when month `m` begins: where the plan says, with every event so far emitted. */
  ghost predicate LoopState(
    s: Setting, spans: seq<Span>, start: int, m: nat, active: seq<nat>, lives: seq<Life>, closedOn: seq<Option<int>>,
    book: Book, cursor: nat)
    requires spans != [] && m <= |spans|
  {
    && Nonempty(spans)
    && AfterMonths(s.facts, spans, m).active == active && AfterMonths(s.facts, spans, m).lives == lives
    && cursor == Merged(s.cash, spans, m)
    && RunState(s, closedOn, book, cursor, LastDay(spans, start, m),
                Emitted(s.facts, s.cash, spans, m), DrawnOver(s.facts, spans, m))
    && ActiveSound(active, Buckets(s.facts.openedOn, spans, |s.facts.openedOn|), s.facts.openedOn, spans, m)
    && ClosuresSound(s.facts.openedOn, closedOn, LastDay(spans, start, m))
  }

  /** One turn of the loop: accounts opening in the month join, and it is closed, drawn, merged, sorted and emitted. */
  method TurnMonth(
    s: Setting, spans: seq<Span>, ghost start: int, out: Outputs, buckets: seq<seq<nat>>, m: nat, active: seq<nat>,
    cursor: nat, transactionId: nat, paymentId: nat, ghost lives: seq<Life>)
    returns (still: seq<nat>, next: nat, lastTransaction: nat, lastPayment: nat, ghost after: seq<Life>)
    requires Filing(s, spans, start, buckets) && Ready(s) && Over(s, out.accounts) && m < |spans|
    requires StandsAt(s.facts, out.accounts, lives)
    requires LoopState(s, spans, start, m, active, lives, out.accounts.closedOn, out.View(), cursor)
    requires transactionId == |out.txns.rows| && paymentId == |out.pays.rows|
    modifies out.accounts`balance, out.accounts`updatedAt, out.accounts`status, out.accounts`closedOn
    modifies out.ledger, out.txns, out.pays, out.stats
    ensures Over(s, out.accounts) && StandsAt(s.facts, out.accounts, after)
    ensures LoopState(s, spans, start, m + 1, still, after, out.accounts.closedOn, out.View(), next)
    ensures lastTransaction == |out.txns.rows| && lastPayment == |out.pays.rows|
  {
    EnterMonth(active, buckets, s.facts.openedOn, spans, m, start, s.facts.anchorDay);
    var entered := active + buckets[m];
    var month := Month(m, spans[m], buckets[m]);
    ghost var before := Entering(s.facts, spans, m);
    assert before == Progress(entered, lives) && month == MonthAt(s.facts, spans, m);
    ghost var sorted;
    still, next, lastTransaction, lastPayment, sorted :=
      OneMonth(s, out, month, entered, cursor, transactionId, paymentId, lives, LastDay(spans, start, m),
               Emitted(s.facts, s.cash, spans, m), DrawnOver(s.facts, spans, m));
    after := AfterMonths(s.facts, spans, m + 1).lives;
    StillOpenIsAmong(after, entered);
    StayingKeepsActive(still, entered, buckets, s.facts.openedOn, spans, m + 1);
    assert sorted == Piece(s.facts, s.cash, spans, m);
    NextMonthJoins(s.facts, s.cash, spans, m);
  }

  /** The month loop: every month's events, then the next month's, until the loan flows are used up. */
  method FoldMonths(
    s: Setting, spans: seq<Span>, ghost start: int, out: Outputs, buckets: seq<seq<nat>>, ghost born: seq<Life>)
    returns (transactionId: nat, paymentId: nat)
    requires Filing(s, spans, start, buckets) && Ready(s) && Over(s, out.accounts)
             && StandsAt(s.facts, out.accounts, born)
    requires LoopState(s, spans, start, 0, [], born, out.accounts.closedOn, out.View(), 0)
    requires |out.txns.rows| == |out.pays.rows| == 0
    modifies out.accounts`balance, out.accounts`updatedAt, out.accounts`status, out.accounts`closedOn
    modifies out.ledger, out.txns, out.pays, out.stats
    ensures Over(s, out.accounts) && Nonempty(spans)
    ensures StandsAt(s.facts, out.accounts, AfterMonths(s.facts, spans, |spans|).lives)
    ensures RunState(s, out.accounts.closedOn, out.View(), |s.cash|, s.facts.anchorDay,
                     Emitted(s.facts, s.cash, spans, |spans|), DrawnOver(s.facts, spans, |spans|))
    ensures ClosuresSound(s.facts.openedOn, out.accounts.closedOn, s.facts.anchorDay)
    ensures transactionId == |out.txns.rows| && paymentId == |out.pays.rows|
  {
    var active: seq<nat>, cursor: nat := [], 0;
    ghost var lives := born;
    transactionId, paymentId := 0, 0;
    for m := 0 to |spans|
      invariant Over(s, out.accounts) && StandsAt(s.facts, out.accounts, lives)
      invariant LoopState(s, spans, start, m, active, lives, out.accounts.closedOn, out.View(), cursor)
      invariant transactionId == |out.txns.rows| && paymentId == |out.pays.rows|
    {
      active, cursor, transactionId, paymentId, lives :=
        TurnMonth(s, spans, start, out, buckets, m, active, cursor, transactionId, paymentId, lives);
    }
    AllMerged(s.cash, cursor, s.facts.openedOn, s.facts.holdUntil, s.facts.anchorDay);
  }

  /** Fresh sinks and an empty ledger over the given accounts: the loop stands at its first month. */
  method Begin(
    s: Setting, spans: seq<Span>, ghost start: int, accounts: AccountBook, ghost born: seq<Life>)
    returns (out: Outputs)
    requires Over(s, accounts) && accounts.Untouched() && Ready(s) && Tiles(spans, start, s.facts.anchorDay)
    requires born == Lives(accounts.status, accounts.closedOn)
    ensures out.accounts == accounts && fresh(out.ledger) && fresh(out.txns) && fresh(out.pays) && fresh(out.stats)
    ensures StandsAt(s.facts, accounts, born)
            && LoopState(s, spans, start, 0, [], born, accounts.closedOn, out.View(), 0)
    ensures |out.txns.rows| == |out.pays.rows| == 0
  {
    var ledger := new L.LedgerWriter(0, 0);
    var txns := new RowSink<TxnRow>();
    var pays := new RowSink<PayRow>();
    var stats := new MovementStats();
    out := Outputs(accounts, ledger, txns, pays, stats);
    assert accounts.balance == Empty(|s.rules.limits|).balance;
    assert LoanEvents(s.cash[..0]) == [];
    LoopBegins(s, spans, start, born, accounts.closedOn, out.View());
  }

  /** What a finished run has: the book is sound and is the run of what the plan emits, in the order it emits it, which
      is the events it draws and every loan cash flow, each exactly once; every one of them lies in its account's life
      and its card's validity. */
  ghost predicate Accounted(s: Setting, spans: seq<Span>, closedOn: seq<Option<int>>, book: Book)
    requires Nonempty(spans)
  {
    var emitted := Emitted(s.facts, s.cash, spans, |spans|);
    && multiset(emitted) == multiset(DrawnOver(s.facts, spans, |spans|)) + multiset(LoanEvents(s.cash))
    && AllFit(s.rules, emitted) && book == Run(s.rules, Empty(|s.rules.limits|), emitted) && Sound(s.rules, book)
    && Drawn(emitted, s.rules.vocabulary, s.facts.cards, s.facts.openedOn, closedOn, s.facts.holdUntil,
             s.facts.anchorDay)
    && HoldsRespected(closedOn, s.facts.holdUntil)
  }

  /** The whole pass, over the windows the history is cut into. Every account ends as the plan says, and the book is the
      one the draws determine. */
  method Generate(s: Setting, spans: seq<Span>, ghost start: int, accounts: AccountBook) returns (out: Outputs)
    requires Tiles(spans, start, s.facts.anchorDay) && Ready(s) && Over(s, accounts) && accounts.Untouched()
    modifies accounts`balance, accounts`updatedAt, accounts`status, accounts`closedOn
    ensures out.accounts == accounts && Over(s, accounts)
    ensures Nonempty(spans) && Accounted(s, spans, accounts.closedOn, out.View())
    ensures StandsAt(s.facts, accounts, AfterMonths(s.facts, spans, |spans|).lives)
    ensures ClosuresSound(s.facts.openedOn, accounts.closedOn, s.facts.anchorDay)
    ensures out.stats.transactions == |out.txns.rows| && out.stats.payments == |out.pays.rows|
  {
    ghost var born := Lives(accounts.status, accounts.closedOn);
    out := Begin(s, spans, start, accounts, born);
    var transactionId, paymentId := Fold(s, spans, start, out, born);
    Count(out, transactionId, paymentId);
  }

  /** The numbers of rows written, kept with the run's statistics. */
  method Count(out: Outputs, transactionId: nat, paymentId: nat)
    modifies out.stats`transactions, out.stats`payments
    ensures out.View() == old(out.View())
    ensures out.stats.transactions == transactionId && out.stats.payments == paymentId
  {
    out.stats.payments := paymentId;
    out.stats.transactions := transactionId;
  }

  /** Files the accounts under the months they enter in, and folds the months. */
  method Fold(s: Setting, spans: seq<Span>, ghost start: int, out: Outputs, ghost born: seq<Life>)
    returns (transactionId: nat, paymentId: nat)
    requires Tiles(spans, start, s.facts.anchorDay) && Ready(s) && Over(s, out.accounts)
             && StandsAt(s.facts, out.accounts, born)
    requires LoopState(s, spans, start, 0, [], born, out.accounts.closedOn, out.View(), 0)
    requires |out.txns.rows| == |out.pays.rows| == 0
    modifies out.accounts`balance, out.accounts`updatedAt, out.accounts`status, out.accounts`closedOn
    modifies out.ledger, out.txns, out.pays, out.stats
    ensures Over(s, out.accounts) && Nonempty(spans) && Accounted(s, spans, out.accounts.closedOn, out.View())
    ensures StandsAt(s.facts, out.accounts, AfterMonths(s.facts, spans, |spans|).lives)
    ensures ClosuresSound(s.facts.openedOn, out.accounts.closedOn, s.facts.anchorDay)
    ensures transactionId == |out.txns.rows| && paymentId == |out.pays.rows|
  {
    OpensAscend(spans, start, s.facts.anchorDay);
    var buckets := OpeningBuckets(out.accounts.openedOn, spans);
    transactionId, paymentId := FoldMonths(s, spans, start, out, buckets, born);
    RunFinishes(s, spans, out.accounts.closedOn, out.View());
  }

  lemma {:induction false} LoopBegins(
    s: Setting, spans: seq<Span>, start: int, born: seq<Life>, closedOn: seq<Option<int>>, book: Book)
    requires Tiles(spans, start, s.facts.anchorDay) && RunState(s, closedOn, book, 0, start - 1, [], [])
    requires |born| == |s.facts.openedOn| == |closedOn|
    requires forall i :: 0 <= i < |born| ==> born[i] == Life(Active, None) && closedOn[i].None?
    ensures LoopState(s, spans, start, 0, [], born, closedOn, book, 0)
  {
    assert born == seq(|s.facts.openedOn|, _ => Life(Active, None));
  }

  /** A run that has used up its loans leaves a sound book, and every loan cash flow is in it once. */
  lemma {:induction false} RunFinishes(s: Setting, spans: seq<Span>, closedOn: seq<Option<int>>, book: Book)
    requires Nonempty(spans)
    requires RunState(s, closedOn, book, |s.cash|, s.facts.anchorDay,
                      Emitted(s.facts, s.cash, spans, |spans|), DrawnOver(s.facts, spans, |spans|))
    ensures Accounted(s, spans, closedOn, book)
  {
    assert s.cash[..|s.cash|] == s.cash;
    EmptyIsSound(s.rules);
    EveryRunIsSound(s.rules, Empty(|s.rules.limits|), Emitted(s.facts, s.cash, spans, |spans|));
  }

  lemma {:induction false} OpensAscend(spans: seq<Span>, start: int, end: int)
    requires Tiles(spans, start, end)
    ensures forall i, k :: 0 <= i < k < |spans| ==> spans[i].opens < spans[k].opens
  {
    forall i, k | 0 <= i < k < |spans| ensures spans[i].opens < spans[k].opens {
      TilesAscend(spans, start, end, i, k);
    }
  }
}
