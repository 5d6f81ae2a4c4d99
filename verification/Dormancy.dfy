/** What an account does while it sleeps, and what wakes it: month by month, told from its draws. */
module Dormancy {
  import opened Rows
  import opened Calendar
  import opened Deposits
  import opened Emission
  import opened Months
  import opened Activity
  import opened Plan
  import opened Movements
  import opened OpeningDeposits

  /** The month's draws close the account. */
  ghost predicate Closes(f: Facts, spans: seq<Span>, a: nat, m: nat)
    requires f.Has(a) && m < |spans| && Nonempty(spans)
  {
    ClosesIn(f.openedOn[a - 1], HoldOf(f.holdUntil, a), f.lifecycle(a, m), spans[m].first, spans[m].last)
  }

  /** An account that is active, whose life that month begins as this. */
  ghost predicate Begins(f: Facts, spans: seq<Span>, a: nat, m: nat, status: AccountStatus)
    requires f.Has(a) && m < |spans| && Nonempty(spans)
  {
    var p := Entering(f, spans, m);
    a in p.active && p.lives[a - 1] == Life(status, None)
  }

  /** Over the month the account sleeps: it falls asleep, or sleeps already and is not woken; and it is not closed. */
  ghost predicate Sleeps(f: Facts, spans: seq<Span>, a: nat, m: nat, status: AccountStatus)
    requires f.Has(a) && m < |spans| && Nonempty(spans)
  {
    var d := f.lifecycle(a, m);
    && !Closes(f, spans, a, m)
    && ((status == Active && d.becomesDormant) || (status == Dormant && !d.reactivates))
  }

  /** What the account draws in the month. */
  ghost function Draws(f: Facts, spans: seq<Span>, a: nat, m: nat): seq<Event>
    requires f.Has(a) && m < |spans| && Nonempty(spans)
  {
    EventsOf(f, OpeningDeposits.Standing(f, spans, m), MonthAt(f, spans, m), a)
  }

  /** A day of the month an account is there for: from its opening, and up to its closing. */
  ghost predicate Open(f: Facts, lives: seq<Life>, m: Month, a: nat, day: int)
    requires |lives| == |f.openedOn| && f.Has(a)
  {
    && Within(m.span, day) && f.openedOn[a - 1] <= day
    && (lives[a - 1].closedOn.Some? ==> day <= lives[a - 1].closedOn.value)
  }

  /** The account's window is exactly the days of the month it is open on, and there is none exactly when there is no
      such day; it is the first month's for an account that enters in it. */
  lemma {:induction false} WindowIsTheDaysOpen(f: Facts, lives: seq<Life>, m: Month, a: nat, day: int)
    requires |lives| == |f.openedOn| && f.Has(a)
    ensures var c := WindowOf(f, lives, m, a);
            && (Open(f, lives, m, a, day) <==> c.Some? && c.value.first <= day <= c.value.last)
            && (c.Some? ==> Open(f, lives, m, a, c.value.first))
            && (c.Some? ==>
                  && c.value.accountId == a && c.value.terms == f.terms[a - 1] && c.value.cardIds == f.cardIds[a - 1]
                  && c.value.openDay == f.openedOn[a - 1] && c.value.span == m.span
                  && (c.value.isFirstMonth <==> a in m.entered))
  {
  }

  lemma {:induction false} StandsAsDecided(f: Facts, spans: seq<Span>, a: nat, m: nat, status: AccountStatus)
    requires f.Has(a) && m < |spans| && Nonempty(spans) && status != Closed && Begins(f, spans, a, m, status)
    ensures OpeningDeposits.Standing(f, spans, m)[a - 1].status == Dormant <==> Sleeps(f, spans, a, m, status)
    ensures OpeningDeposits.Standing(f, spans, m)[a - 1].closedOn
         == if Closes(f, spans, a, m)
            then Some(DrawnClosure(f.lifecycle(a, m), spans[m].first, spans[m].last)) else None
  {
    MonthDecides(Life(status, None), f.openedOn[a - 1], HoldOf(f.holdUntil, a), f.lifecycle(a, m), spans[m].first,
                 spans[m].last);
  }

  /** In a month an account draws nothing if it sleeps over it, and everything a live account would if it does not: one
      that was dormant transacts again in the very month that wakes it. */
  lemma {:induction false} MonthDrawsUnlessAsleep(
    f: Facts, spans: seq<Span>, start: int, a: nat, m: nat, status: AccountStatus)
    requires Whole(f, spans, start) && f.Has(a) && m < |spans| && Nonempty(spans)
    requires status != Closed && Begins(f, spans, a, m, status)
    ensures var window := WindowOf(f, OpeningDeposits.Standing(f, spans, m), MonthAt(f, spans, m), a);
            && (window.Some? ==> OwnCards(window.value))
            && Draws(f, spans, a, m)
               == if window.None? || Sleeps(f, spans, a, m, status) then []
                  else MonthOf(window.value, Active, f.activity(a, m))
  {
    StandsAsDecided(f, spans, a, m, status);
    assert Owned(f.cardIds[a - 1], f.cards, a);
  }

  /** What the month as a whole draws of the account is that. */
  lemma {:induction false} MonthHoldsItsDraws(
    f: Facts, spans: seq<Span>, start: int, a: nat, m: nat, status: AccountStatus, e: Event)
    requires Whole(f, spans, start) && f.Has(a) && m < |spans| && Nonempty(spans) && Begins(f, spans, a, m, status)
    requires e.accountId == a
    ensures multiset(OwnEvents(f, spans, m))[e] == multiset(Draws(f, spans, a, m))[e]
  {
    DrawnIfActive(f, spans, start, m, e);
  }

  lemma {:induction false} NextMonthBegins(f: Facts, spans: seq<Span>, a: nat, m: nat, status: AccountStatus)
    requires f.Has(a) && m + 1 < |spans| && Nonempty(spans) && status != Closed && Begins(f, spans, a, m, status)
    requires !Closes(f, spans, a, m)
    ensures Begins(f, spans, a, m + 1, OpeningDeposits.Standing(f, spans, m)[a - 1].status)
    ensures OpeningDeposits.Standing(f, spans, m)[a - 1].status != Closed
  {
    var lives, active := OpeningDeposits.Standing(f, spans, m), Entering(f, spans, m).active;
    MonthDecides(Life(status, None), f.openedOn[a - 1], HoldOf(f.holdUntil, a), f.lifecycle(a, m), spans[m].first,
                 spans[m].last);
    StillOpenIsAmong(lives, active);
    assert AfterMonths(f, spans, m + 1) == AfterMonth(f, Entering(f, spans, m), MonthAt(f, spans, m));
  }

  /** No month from one up to another wakes the account or closes it. */
  ghost predicate LeftAsleep(f: Facts, spans: seq<Span>, a: nat, m: nat, n: nat)
    requires f.Has(a) && n <= |spans| && Nonempty(spans)
  {
    forall k :: m <= k < n ==> !f.lifecycle(a, k).reactivates && !Closes(f, spans, a, k)
  }

  /** A dormant account stays dormant until a month wakes it or closes it. */
  lemma {:induction false} StaysDormant(f: Facts, spans: seq<Span>, a: nat, m: nat, n: nat)
    requires f.Has(a) && m <= n < |spans| && Nonempty(spans) && Begins(f, spans, a, m, Dormant)
    requires LeftAsleep(f, spans, a, m, n)
    ensures Begins(f, spans, a, n, Dormant)
    decreases n
  {
    if m < n {
      StaysDormant(f, spans, a, m, n - 1);
      StandsAsDecided(f, spans, a, n - 1, Dormant);
      NextMonthBegins(f, spans, a, n - 1, Dormant);
    }
  }

  /** And nothing is drawn of it until then, in that month or any before; in the month that wakes it it draws again. */
  lemma {:induction false} SleepsUntilWoken(f: Facts, spans: seq<Span>, start: int, a: nat, m: nat, n: nat)
    requires Whole(f, spans, start) && f.Has(a) && m <= n < |spans| && Nonempty(spans)
    requires Begins(f, spans, a, m, Dormant) && LeftAsleep(f, spans, a, m, n)
    ensures !f.lifecycle(a, n).reactivates && !Closes(f, spans, a, n) ==> Draws(f, spans, a, n) == []
    ensures f.lifecycle(a, n).reactivates ==>
              var window := WindowOf(f, OpeningDeposits.Standing(f, spans, n), MonthAt(f, spans, n), a);
              window.Some? ==>
                OwnCards(window.value)
                && Draws(f, spans, a, n) == MonthOf(window.value, Active, f.activity(a, n))
  {
    StaysDormant(f, spans, a, m, n);
    MonthDrawsUnlessAsleep(f, spans, start, a, n, Dormant);
  }
}
