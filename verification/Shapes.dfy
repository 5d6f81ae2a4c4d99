/** What an account's month is made of: its opening deposit, if it has one, then events drawn in its window. */
module Shapes {
  import opened Rows
  import opened Calendar
  import opened Deposits
  import opened Emission
  import opened Activity

  /** A movement that repays no loan. */
  predicate Plain(e: Event) {
    e.item.Transaction? ==> e.item.principal.None?
  }

  /** Events of the account, in its window, numbered after the `before` events already drawn. */
  ghost predicate InTurn(c: Context, events: seq<Event>, before: nat) {
    forall i :: 0 <= i < |events| ==>
      events[i].accountId == c.accountId && events[i].place == before + i + 1 && c.first <= events[i].day <= c.last
        && Plain(events[i])
  }

  /** The opening deposit first, if there is one, then events drawn in the window, all of them numbered. */
  ghost predicate Shaped(c: Context, d: MonthDraws, events: seq<Event>) {
    && OpeningEvents(c, d) <= events
    && forall i :: 0 <= i < |events| ==>
         && events[i].accountId == c.accountId && events[i].place == i + 1 && Plain(events[i])
         && (i < |OpeningEvents(c, d)| || c.first <= events[i].day <= c.last)
  }

  lemma {:induction false} MoreInTurn(c: Context, d: MonthDraws, events: seq<Event>, more: seq<Event>)
    requires Shaped(c, d, events) && InTurn(c, more, |events|)
    ensures Shaped(c, d, events + more)
  {
    var all := events + more;
    forall i | 0 <= i < |all|
      ensures all[i].accountId == c.accountId && all[i].place == i + 1 && Plain(all[i])
      ensures i < |OpeningEvents(c, d)| || c.first <= all[i].day <= c.last
    {
      assert all[i] == if i < |events| then events[i] else more[i - |events|];
    }
  }

  lemma {:induction false} RegularInTurn(c: Context, draws: seq<RegularDraw>, before: nat)
    requires c.first <= c.last && OwnCards(c)
    ensures InTurn(c, RegularEvents(c, draws, before), before)
  {
    if draws != [] {
      RegularInTurn(c, draws[..|draws| - 1], before);
    }
  }

  lemma {:induction false} MandatesInTurn(c: Context, mandates: seq<MandateDraw>, before: nat)
    requires OwnCards(c)
    ensures InTurn(c, MandateEvents(c, mandates, before), before)
  {
    if mandates != [] {
      MandatesInTurn(c, mandates[..|mandates| - 1], before);
    }
  }

  lemma {:induction false} StepsInTurn(c: Context, b: BurstDraw, day: int, cardId: nat, n: nat, before: nat)
    requires n <= |b.steps| && c.first <= day <= c.last
    ensures InTurn(c, BurstSteps(c, b, day, cardId, n, before), before)
  {
    if n > 0 {
      StepsInTurn(c, b, day, cardId, n - 1, before);
    }
  }

  lemma {:induction false} BurstInTurn(c: Context, burst: Option<BurstDraw>, before: nat)
    requires c.first <= c.last && OwnCards(c)
    ensures InTurn(c, BurstEvents(c, burst, before), before)
  {
    if burst.Some? && c.cardIds != [] {
      var b := burst.value;
      StepsInTurn(c, b, DrawnDay(c, b.dayOffset), c.cardIds[b.cardPick % |c.cardIds|], |b.steps|, before);
    }
  }

  lemma {:induction false} FeesInTurn(c: Context, fees: seq<FeeDraw>, before: nat)
    requires c.first <= c.last
    ensures InTurn(c, FeeEvents(c, fees, before), before)
  {
    if fees != [] {
      FeesInTurn(c, fees[..|fees| - 1], before);
    }
  }

  lemma {:induction false} PaymentsInTurn(c: Context, payments: seq<PaymentDraw>, before: nat)
    requires c.first <= c.last
    ensures InTurn(c, PaymentEvents(c, payments, before), before)
  {
    if payments != [] {
      PaymentsInTurn(c, payments[..|payments| - 1], before);
    }
  }

  lemma {:induction false} MonthStarts(c: Context, d: MonthDraws)
    requires c.first <= c.last && OwnCards(c)
    ensures var regular := OpeningEvents(c, d) + RegularEvents(c, d.regular, |OpeningEvents(c, d)|);
            var salary := regular + SalaryEvents(c, d, |regular|);
            Shaped(c, d, salary + MandateEvents(c, d.mandates, |salary|))
  {
    var opening := OpeningEvents(c, d);
    var regular := opening + RegularEvents(c, d.regular, |opening|);
    RegularInTurn(c, d.regular, |opening|);
    MoreInTurn(c, d, opening, RegularEvents(c, d.regular, |opening|));
    MoreInTurn(c, d, regular, SalaryEvents(c, d, |regular|));
    var salary := regular + SalaryEvents(c, d, |regular|);
    MandatesInTurn(c, d.mandates, |salary|);
    MoreInTurn(c, d, salary, MandateEvents(c, d.mandates, |salary|));
  }

  lemma {:induction false} MonthEnds(c: Context, d: MonthDraws, mandates: seq<Event>)
    requires c.first <= c.last && OwnCards(c) && Shaped(c, d, mandates)
    ensures var burst := mandates + BurstEvents(c, d.burst, |mandates|);
            var fees := burst + FeeEvents(c, d.fees, |burst|);
            Shaped(c, d, fees + PaymentEvents(c, d.payments, |fees|))
  {
    BurstInTurn(c, d.burst, |mandates|);
    MoreInTurn(c, d, mandates, BurstEvents(c, d.burst, |mandates|));
    var burst := mandates + BurstEvents(c, d.burst, |mandates|);
    FeesInTurn(c, d.fees, |burst|);
    MoreInTurn(c, d, burst, FeeEvents(c, d.fees, |burst|));
    var fees := burst + FeeEvents(c, d.fees, |burst|);
    PaymentsInTurn(c, d.payments, |fees|);
    MoreInTurn(c, d, fees, PaymentEvents(c, d.payments, |fees|));
  }

  /** A live account's month is its opening deposit, if it has one, and what is drawn in its window, all of it its own
      and numbered; a dormant one's is empty. */
  lemma {:induction false} MonthIsShaped(c: Context, status: AccountStatus, d: MonthDraws)
    requires c.first <= c.last && OwnCards(c)
    ensures if status == Dormant then MonthOf(c, status, d) == [] else Shaped(c, d, MonthOf(c, status, d))
  {
    MonthStarts(c, d);
    var regular := OpeningEvents(c, d) + RegularEvents(c, d.regular, |OpeningEvents(c, d)|);
    var salary := regular + SalaryEvents(c, d, |regular|);
    MonthEnds(c, d, salary + MandateEvents(c, d.mandates, |salary|));
  }
}
