/** What each section of an account's month comes to, told from its draws: which are kept, and the movement each of them
    becomes. */
module Sections {
  import opened Rows
  import opened Calendar
  import opened Deposits
  import opened Emission
  import opened Activity

  /** Seconds into the day an event was drawn on. */
  function TimeOf(e: Event): int {
    e.at - e.day * DAY
  }

  /** An event of the account, in its place, at a time of the day it was drawn on. */
  predicate Placed(c: Context, e: Event, place: nat, day: int, time: int) {
    e.accountId == c.accountId && e.place == place && e.day == day && TimeOf(e) == time
  }

  /** A posted transaction of the account's own currency, valued the day it happens, that repays no loan. */
  predicate Plain(c: Context, e: Event, typeCode: string, amount: nat, cardId: Option<nat>) {
    && e.item.Transaction? && e.item.typeCode == typeCode && e.item.magnitude == amount && e.item.cardId == cardId
    && e.item.status == "posted" && e.item.valueDate == e.day && e.item.currency == c.terms.currency
    && e.item.principal == None && e.item.authOutcome == (if cardId.Some? then Some("approved") else None)
  }

  // ---------------------------------------------------------------- ordinary draws

  /** Saturday and Sunday; day one of the calendar is a Monday. */
  predicate OnWeekend(day: int) {
    day % 7 == 6 || day % 7 == 0
  }

  predicate NeedsCard(typeCode: string) {
    typeCode == "card_purchase" || typeCode == "card_refund" || typeCode == "atm_withdrawal"
  }

  predicate NeedsMerchant(typeCode: string) {
    typeCode == "card_purchase" || typeCode == "card_refund"
  }

  predicate NeedsAgent(typeCode: string) {
    typeCode == "agent_withdrawal" || typeCode == "agent_deposit"
  }

  /** Which of the account's cards a draw picks. */
  function Picked(c: Context, pick: nat): (cardId: nat)
    requires c.cardIds != []
    ensures cardId in c.cardIds
  {
    c.cardIds[pick % |c.cardIds|]
  }

  /** The card has been issued by the day, and has not stopped by then. */
  predicate Works(c: Context, cardId: nat, day: int)
    requires 1 <= cardId <= |c.cards|
  {
    c.cards[cardId - 1].issued <= day && day < c.cards[cardId - 1].usableUntil
  }

  /** An ordinary draw comes to something: it has a channel, its weekend is not dropped, and it has the card, the
      merchant or the agent it needs. */
  predicate Happens(c: Context, d: RegularDraw)
    requires c.first <= c.last && OwnCards(c)
  {
    var day := DrawnDay(c, d.dayOffset);
    && d.hasChannel && (OnWeekend(day) ==> !d.weekendDrop)
    && (NeedsCard(d.typeCode) ==> c.cardIds != [] && Works(c, Picked(c, d.cardPick), day))
    && (NeedsMerchant(d.typeCode) ==> d.merchantFound && (OnWeekend(day) ==> !d.bandWeekendDrop))
    && (NeedsAgent(d.typeCode) ==> c.agents > 0)
  }

  /** And this is the movement it comes to. */
  predicate HappensAs(c: Context, d: RegularDraw, place: nat, e: Event)
    requires c.first <= c.last && OwnCards(c)
  {
    var day, t := DrawnDay(c, d.dayOffset), e.item;
    && Placed(c, e, place, day, d.second % DAY)
    && t.Transaction? && t.typeCode == d.typeCode && t.magnitude == d.magnitude && t.status == d.status
    && t.currency == c.terms.currency && t.principal == None
    && (NeedsCard(d.typeCode) ==>
          c.cardIds != [] && t.cardId == Some(Picked(c, d.cardPick)) && t.authOutcome == Some(d.authOutcome))
    && (!NeedsCard(d.typeCode) ==> t.cardId == None && t.authOutcome == None)
    && (!d.lagged ==> t.valueDate == day)
    && (d.lagged ==> t.valueDate == if day + 1 + d.lagDays <= c.anchorDay then day + 1 + d.lagDays else c.anchorDay)
  }

  lemma {:induction false} RegularDrawHappens(c: Context, d: RegularDraw, place: nat)
    requires c.first <= c.last && OwnCards(c)
    ensures RegularEvent(c, d, place).Some? <==> Happens(c, d)
    ensures Happens(c, d) ==> HappensAs(c, d, place, RegularEvent(c, d, place).value)
  {
    WeekendsRecur(DrawnDay(c, d.dayOffset));
  }

  lemma {:induction false} WeekendsRecur(day: int)
    ensures Weekend(day) <==> OnWeekend(day)
  {
  }

  /** Any day of the window can be drawn. */
  lemma {:induction false} AnyDayCanBeDrawn(c: Context, day: int)
    requires c.first <= day <= c.last
    ensures DrawnDay(c, day - c.first) == day
  {
  }

  function Happening(c: Context): RegularDraw -> bool
    requires c.first <= c.last && OwnCards(c)
  {
    (d: RegularDraw) requires c.first <= c.last && OwnCards(c) => Happens(c, d)
  }

  // ---------------------------------------------------------------- the other sections

  /** The day of the month, or the month's last day when it has no such day. */
  function DayIn(span: Span, dayOfMonth: nat): int {
    if dayOfMonth <= span.days then span.opens + dayOfMonth - 1 else span.opens + span.days - 1
  }

  predicate InTheWindow(c: Context, day: int) {
    c.first <= day <= c.last
  }

  predicate SalaryArrives(c: Context) {
    c.terms.salaryDay != 0 && InTheWindow(c, DayIn(c.span, c.terms.salaryDay))
  }

  predicate MandateRuns(c: Context, m: MandateDraw)
    requires OwnCards(c)
  {
    var day := DayIn(c.span, m.dayOfMonth);
    InTheWindow(c, day) && c.cardIds != [] && Works(c, c.cardIds[0], day)
  }

  function Running(c: Context): MandateDraw -> bool
    requires OwnCards(c)
  {
    (m: MandateDraw) requires OwnCards(c) => MandateRuns(c, m)
  }

  predicate BurstRuns(c: Context, burst: Option<BurstDraw>)
    requires c.first <= c.last && OwnCards(c)
  {
    burst.Some? && c.cardIds != []
    && Works(c, Picked(c, burst.value.cardPick), DrawnDay(c, burst.value.dayOffset))
  }

  function Firing(): FeeDraw -> bool {
    (fee: FeeDraw) => fee.fires
  }

  /** The opening balance is paid in at nine, on the opening day, in the account's first month and if there is one. */
  lemma {:induction false} OpeningIsPaidIn(c: Context, d: MonthDraws)
    ensures |OpeningEvents(c, d)| == if c.isFirstMonth && c.terms.openingBalance > 0 then 1 else 0
    ensures forall e :: e in OpeningEvents(c, d) ==>
              && Placed(c, e, 1, c.openDay, 9 * 3600 + d.openingMinute % 60 * 60)
              && Plain(c, e, "transfer_in", c.terms.openingBalance, None)
  {
  }

  /** Movement by movement what was drawn, numbered after the `before` movements already there. */
  ghost predicate AllAsDrawn(c: Context, draws: seq<RegularDraw>, before: nat, events: seq<Event>)
    requires c.first <= c.last && OwnCards(c)
  {
    |events| == |draws| && forall i :: 0 <= i < |events| ==> HappensAs(c, draws[i], before + i + 1, events[i])
  }

  lemma {:induction false} OneMoreAsDrawn(
    c: Context, draws: seq<RegularDraw>, before: nat, events: seq<Event>, d: RegularDraw, e: Event)
    requires c.first <= c.last && OwnCards(c) && AllAsDrawn(c, draws, before, events)
    requires HappensAs(c, d, before + |events| + 1, e)
    ensures AllAsDrawn(c, draws + [d], before, events + [e])
  {
  }

  /** The ordinary draws that come to something, in turn, each as its movement. */
  lemma {:induction false} OrdinaryDrawsHappen(c: Context, draws: seq<RegularDraw>, before: nat)
    requires c.first <= c.last && OwnCards(c)
    ensures AllAsDrawn(c, Kept(draws, Happening(c)), before, RegularEvents(c, draws, before))
  {
    if draws != [] {
      var front, d := draws[..|draws| - 1], draws[|draws| - 1];
      var events := RegularEvents(c, front, before);
      OrdinaryDrawsHappen(c, front, before);
      RegularDrawHappens(c, d, before + |events| + 1);
      if Happens(c, d) {
        OneMoreAsDrawn(c, Kept(front, Happening(c)), before, events, d,
                       RegularEvent(c, d, before + |events| + 1).value);
      }
    }
  }

  /** The salary arrives at five on its day, if that is in the window. */
  lemma {:induction false} SalaryIsPaid(c: Context, d: MonthDraws, before: nat)
    ensures |SalaryEvents(c, d, before)| == if SalaryArrives(c) then 1 else 0
    ensures forall e :: e in SalaryEvents(c, d, before) ==>
              && Placed(c, e, before + 1, DayIn(c.span, c.terms.salaryDay), 5 * 3600 + d.salaryMinute % 60 * 60)
              && Plain(c, e, "transfer_in", c.terms.salaryAmount, None)
  {
  }

  /** Each mandate whose day is in the window takes its amount from the first card, between two and six. */
  lemma {:induction false} MandatesAreTaken(c: Context, mandates: seq<MandateDraw>, before: nat)
    requires OwnCards(c)
    ensures var events, kept := MandateEvents(c, mandates, before), Kept(mandates, Running(c));
            |events| == |kept|
            && forall i :: 0 <= i < |events| ==>
                && c.cardIds != []
                && Placed(c, events[i], before + i + 1, DayIn(c.span, kept[i].dayOfMonth),
                          2 * 3600 + kept[i].second % (4 * 3600))
                && Plain(c, events[i], "card_purchase", kept[i].amount, Some(c.cardIds[0]))
  {
    if mandates != [] {
      MandatesAreTaken(c, mandates[..|mandates| - 1], before);
    }
  }

  lemma {:induction false} StepsFollow(c: Context, b: BurstDraw, day: int, cardId: nat, n: nat, before: nat)
    requires n <= |b.steps|
    ensures forall i :: 0 <= i < n ==>
              && Placed(c, BurstSteps(c, b, day, cardId, n, before)[i], before + i + 1, day,
                        b.second % DAY + i * 60 * (2 + b.steps[i].gap % 6))
              && Plain(c, BurstSteps(c, b, day, cardId, n, before)[i], "card_purchase", b.steps[i].amount,
                       Some(cardId))
  {
    if n > 0 {
      StepsFollow(c, b, day, cardId, n - 1, before);
      StepIsMinutesOn(day, b, n - 1);
    }
  }

  lemma {:induction false} StepIsMinutesOn(day: int, b: BurstDraw, step: nat)
    requires step < |b.steps|
    ensures BurstAt(day, b, step) == day * DAY + b.second % DAY + step * 60 * (2 + b.steps[step].gap % 6)
  {
    var gap := 2 + b.steps[step].gap % 6;
    assert step * gap * 60 == step * 60 * gap;
  }

  /** A burst is all its purchases on one usable card on one day of the window, minutes after one another, or
      nothing. */
  lemma {:induction false} BurstIsAllOrNothing(c: Context, burst: Option<BurstDraw>, before: nat)
    requires c.first <= c.last && OwnCards(c)
    ensures var events := BurstEvents(c, burst, before);
            && |events| == (if BurstRuns(c, burst) then |burst.value.steps| else 0)
            && forall i :: 0 <= i < |events| ==>
                var b := burst.value;
                && Placed(c, events[i], before + i + 1, DrawnDay(c, b.dayOffset),
                          b.second % DAY + i * 60 * (2 + b.steps[i].gap % 6))
                && Plain(c, events[i], "card_purchase", b.steps[i].amount, Some(Picked(c, b.cardPick)))
  {
    if BurstRuns(c, burst) {
      var b := burst.value;
      StepsFollow(c, b, DrawnDay(c, b.dayOffset), Picked(c, b.cardPick), |b.steps|, before);
    }
  }

  /** Exactly the fees that fire are charged, in turn, at two on a day of the window. */
  lemma {:induction false} FeesAreCharged(c: Context, fees: seq<FeeDraw>, before: nat)
    requires c.first <= c.last
    ensures var events, kept := FeeEvents(c, fees, before), Kept(fees, Firing());
            |events| == |kept|
            && forall i :: 0 <= i < |events| ==>
                && Placed(c, events[i], before + i + 1, DrawnDay(c, kept[i].dayOffset),
                          2 * 3600 + kept[i].minute % 60 * 60)
                && Plain(c, events[i], kept[i].typeCode, kept[i].amount, None)
  {
    if fees != [] {
      FeesAreCharged(c, fees[..|fees| - 1], before);
    }
  }

  /** Every payment drawn is instructed, as it was drawn. */
  lemma {:induction false} PaymentsAreInstructed(c: Context, payments: seq<PaymentDraw>, before: nat)
    requires c.first <= c.last
    ensures var events := PaymentEvents(c, payments, before);
            |events| == |payments|
            && forall i :: 0 <= i < |events| ==>
                var p := payments[i];
                && Placed(c, events[i], before + i + 1, DrawnDay(c, p.dayOffset), p.second % DAY)
                && events[i].item
                   == Payment(p.typeCode, p.scheme, p.status, p.amount, c.terms.currency, p.settleLag)
  {
    if payments != [] {
      PaymentsAreInstructed(c, payments[..|payments| - 1], before);
    }
  }

  // ---------------------------------------------------------------- the month

  /** How many events a live account's month has. */
  function MonthSize(c: Context, d: MonthDraws): nat
    requires c.first <= c.last && OwnCards(c)
  {
    (if c.isFirstMonth && c.terms.openingBalance > 0 then 1 else 0)
    + |Kept(d.regular, Happening(c))|
    + (if SalaryArrives(c) then 1 else 0)
    + |Kept(d.mandates, Running(c))|
    + (if BurstRuns(c, d.burst) then |d.burst.value.steps| else 0)
    + |Kept(d.fees, Firing())|
    + |d.payments|
  }

  /** A live account's month is its sections in order, whole: the opening deposit, the ordinary draws, the salary, the
      mandates, the burst, the fees and the payments, each as its own lemma says, with nothing between and nothing
      left out. */
  lemma {:induction false} MonthIsItsSections(c: Context, status: AccountStatus, d: MonthDraws)
    requires c.first <= c.last && OwnCards(c) && status != Dormant
    ensures |MonthOf(c, status, d)| == MonthSize(c, d)
    ensures var opening := OpeningEvents(c, d);
            var regular := RegularEvents(c, d.regular, |opening|);
            var salary := SalaryEvents(c, d, |opening + regular|);
            var mandates := MandateEvents(c, d.mandates, |opening + regular + salary|);
            var burst := BurstEvents(c, d.burst, |opening + regular + salary + mandates|);
            var fees := FeeEvents(c, d.fees, |opening + regular + salary + mandates + burst|);
            var payments := PaymentEvents(c, d.payments, |opening + regular + salary + mandates + burst + fees|);
            MonthOf(c, status, d) == opening + regular + salary + mandates + burst + fees + payments
  {
    var opening := OpeningEvents(c, d);
    OpeningIsPaidIn(c, d);
    OrdinaryDrawsHappen(c, d.regular, |opening|);
    var regular := opening + RegularEvents(c, d.regular, |opening|);
    SalaryIsPaid(c, d, |regular|);
    var salary := regular + SalaryEvents(c, d, |regular|);
    MandatesAreTaken(c, d.mandates, |salary|);
    var mandates := salary + MandateEvents(c, d.mandates, |salary|);
    BurstIsAllOrNothing(c, d.burst, |mandates|);
    var burst := mandates + BurstEvents(c, d.burst, |mandates|);
    FeesAreCharged(c, d.fees, |burst|);
    PaymentsAreInstructed(c, d.payments, |burst + FeeEvents(c, d.fees, |burst|)|);
  }
}
