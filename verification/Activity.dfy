/** What one account does in one month: every event is drawn inside the account's window and its card's validity. */
module Activity {
  import opened Rows
  import opened Calendar
  import opened Deposits
  import opened Emission

  /** What the month knows about the account. */
  datatype Context = Context(
    accountId: nat, terms: Terms, openDay: int, cardIds: seq<nat>, cards: seq<CardRow>, span: Span,
    first: int, last: int, isFirstMonth: bool, anchorDay: int, agents: nat)

  // A raw number stands for a draw from whatever range the source draws it from.

  datatype RegularDraw = RegularDraw(
    dayOffset: nat, weekendDrop: bool, typeCode: string, hasChannel: bool, cardPick: nat, merchantFound: bool,
    bandWeekendDrop: bool, second: nat, magnitude: nat, status: string, authOutcome: string,
    lagged: bool, lagDays: nat)

  datatype MandateDraw = MandateDraw(dayOfMonth: nat, amount: nat, second: nat)

  datatype BurstStep = BurstStep(gap: nat, amount: nat)

  datatype BurstDraw = BurstDraw(dayOffset: nat, cardPick: nat, second: nat, steps: seq<BurstStep>)

  datatype FeeDraw = FeeDraw(typeCode: string, fires: bool, dayOffset: nat, minute: nat, amount: nat)

  datatype PaymentDraw = PaymentDraw(
    dayOffset: nat, second: nat, typeCode: string, scheme: string, status: string, amount: nat, settleLag: nat)

  datatype MonthDraws = MonthDraws(
    openingMinute: nat, regular: seq<RegularDraw>, salaryMinute: nat, mandates: seq<MandateDraw>,
    burst: Option<BurstDraw>, fees: seq<FeeDraw>, payments: seq<PaymentDraw>)

  /** Types the code names itself, or the profile may draw, all exist in the reference tables. */
  predicate KnownTypes(v: Vocabulary, d: MonthDraws) {
    && "transfer_in" in v.txnDirection && "card_purchase" in v.txnDirection
    && (forall i :: 0 <= i < |d.regular| ==> d.regular[i].typeCode in v.txnDirection)
    && (forall i :: 0 <= i < |d.fees| ==> d.fees[i].typeCode in v.txnDirection)
    && (forall i :: 0 <= i < |d.payments| ==> d.payments[i].typeCode in v.payDirection)
  }

  predicate KnownType(v: Vocabulary, e: Event) {
    if e.item.Transaction? then e.item.typeCode in v.txnDirection else e.item.payType in v.payDirection
  }

  /** A card movement falls inside its own account's card's validity. */
  predicate CardUsable(e: Event, cards: seq<CardRow>) {
    e.item.Transaction? && e.item.cardId.Some? ==>
      var c := e.item.cardId.value;
      1 <= c <= |cards| && cards[c - 1].accountId == e.accountId
      && cards[c - 1].issued <= e.day < cards[c - 1].usableUntil
  }

  /** The account's own, drawn inside its window of the month, or on its opening day in its first month. */
  predicate InWindow(c: Context, e: Event) {
    && e.accountId == c.accountId && CardUsable(e, c.cards)
    && (c.first <= e.day <= c.last || (c.isFirstMonth && e.day == c.openDay))
    && e.day * DAY <= e.at
  }

  predicate Proper(c: Context, v: Vocabulary, e: Event) {
    KnownType(v, e) && InWindow(c, e)
  }

  ghost predicate AllProper(c: Context, v: Vocabulary, events: seq<Event>) {
    forall i :: 0 <= i < |events| ==> Proper(c, v, events[i]) && events[i].place == i + 1
  }

  /** The account's cards are its own. */
  predicate OwnCards(c: Context) {
    forall k :: 0 <= k < |c.cardIds| ==>
        1 <= c.cardIds[k] <= |c.cards| && c.cards[c.cardIds[k] - 1].accountId == c.accountId
  }

  predicate Usable(c: Context, cardId: nat, day: int)
    requires 1 <= cardId <= |c.cards|
  {
    c.cards[cardId - 1].issued <= day < c.cards[cardId - 1].usableUntil
  }

  function DrawnDay(c: Context, offset: nat): (day: int)
    requires c.first <= c.last
    ensures c.first <= day <= c.last
  {
    c.first + offset % (c.last - c.first + 1)
  }

  function At(day: int, second: nat): (instant: int)
    ensures DayOf(instant) == day && day * DAY <= instant
  {
    day * DAY + second % DAY
  }

  /** Monday is day one of the calendar; the last two days of a week are its weekend. */
  predicate Weekend(day: int) {
    (day + 6) % 7 >= 5
  }

  /** A recurring payment's day in the month, pulled back when the month is short. */
  function ClampedDay(c: Context, dayOfMonth: nat): int {
    c.span.opens + Min(dayOfMonth, c.span.days) - 1
  }

  function Simple(c: Context, place: nat, at: int, day: int, typeCode: string, amount: nat): Event {
    Event(at, c.accountId, place, day, Transaction(typeCode, None, amount, "posted", None, day, c.terms.currency, None))
  }

  function CardPurchase(c: Context, place: nat, at: int, day: int, cardId: nat, amount: nat): Event {
    Event(at, c.accountId, place, day,
          Transaction("card_purchase", Some(cardId), amount, "posted", Some("approved"), day, c.terms.currency, None))
  }

  /** One ordinary draw, or nothing when the code drops it. */
  function RegularEvent(c: Context, d: RegularDraw, place: nat): (e: Option<Event>)
    requires c.first <= c.last && OwnCards(c)
    ensures e.Some? ==> e.value.place == place && DayOf(e.value.at) == e.value.day
    ensures e.Some? ==> InWindow(c, e.value) && e.value.item.Transaction? && e.value.item.typeCode == d.typeCode
  {
    var day := DrawnDay(c, d.dayOffset);
    var onCard := d.typeCode in ["card_purchase", "card_refund", "atm_withdrawal"];
    if (Weekend(day) && d.weekendDrop) || !d.hasChannel then None
    else if onCard && c.cardIds == [] then None
    else if onCard && !Usable(c, c.cardIds[d.cardPick % |c.cardIds|], day) then None
    else if onCard && d.typeCode != "atm_withdrawal"
      && (!d.merchantFound || (Weekend(day) && d.bandWeekendDrop)) then None
    else if d.typeCode in ["agent_withdrawal", "agent_deposit"] && c.agents == 0 then None
    else
      var cardId := if onCard then Some(c.cardIds[d.cardPick % |c.cardIds|]) else None;
      var valueDate := if d.lagged then Min(day + 1 + d.lagDays, c.anchorDay) else day;
      Some(Event(At(day, d.second), c.accountId, place, day,
                 Transaction(d.typeCode, cardId, d.magnitude, d.status, if onCard then Some(d.authOutcome) else None,
                             valueDate, c.terms.currency, None)))
  }

  function OpeningEvents(c: Context, d: MonthDraws): seq<Event> {
    if c.isFirstMonth && c.terms.openingBalance > 0
    then [Simple(c, 1, At(c.openDay, 9 * 3600 + d.openingMinute % 60 * 60), c.openDay, "transfer_in",
                 c.terms.openingBalance)]
    else []
  }

  method OpeningDeposit(c: Context, d: MonthDraws, v: Vocabulary) returns (events: seq<Event>)
    requires KnownTypes(v, d)
    ensures AllProper(c, v, events) && events == OpeningEvents(c, d)
  {
    events := [];
    if c.isFirstMonth && c.terms.openingBalance > 0 {
      events := [Simple(c, 1, At(c.openDay, 9 * 3600 + d.openingMinute % 60 * 60), c.openDay,
                        "transfer_in", c.terms.openingBalance)];
    }
  }

  /** Each section's events, numbered after the `before` events already drawn. */
  function RegularEvents(c: Context, draws: seq<RegularDraw>, before: nat): seq<Event>
    requires c.first <= c.last && OwnCards(c)
  {
    if draws == [] then []
    else
      var front := RegularEvents(c, draws[..|draws| - 1], before);
      var e := RegularEvent(c, draws[|draws| - 1], before + |front| + 1);
      if e.Some? then front + [e.value] else front
  }

  lemma {:induction false} MoreProper(c: Context, v: Vocabulary, events: seq<Event>, e: Event)
    requires AllProper(c, v, events) && Proper(c, v, e) && e.place == |events| + 1
    ensures AllProper(c, v, events + [e])
  {
  }

  method Regular(c: Context, d: MonthDraws, v: Vocabulary, events: seq<Event>) returns (out: seq<Event>)
    requires c.first <= c.last && OwnCards(c) && KnownTypes(v, d) && AllProper(c, v, events)
    ensures AllProper(c, v, out) && out == events + RegularEvents(c, d.regular, |events|)
  {
    out := events;
    for i := 0 to |d.regular|
      invariant AllProper(c, v, out) && out == events + RegularEvents(c, d.regular[..i], |events|)
    {
      assert d.regular[..i + 1][..i] == d.regular[..i];
      var e := RegularEvent(c, d.regular[i], |out| + 1);
      if e.Some? {
        MoreProper(c, v, out, e.value);
        out := out + [e.value];
      }
    }
    assert d.regular[..|d.regular|] == d.regular;
  }

  function SalaryEvents(c: Context, d: MonthDraws, before: nat): seq<Event> {
    var payDay := ClampedDay(c, c.terms.salaryDay);
    if c.terms.salaryDay == 0 || !(c.first <= payDay <= c.last) then []
    else [Simple(c, before + 1, At(payDay, 5 * 3600 + d.salaryMinute % 60 * 60), payDay, "transfer_in",
                 c.terms.salaryAmount)]
  }

  method Salary(c: Context, d: MonthDraws, v: Vocabulary, events: seq<Event>) returns (out: seq<Event>)
    requires KnownTypes(v, d) && AllProper(c, v, events)
    ensures AllProper(c, v, out) && out == events + SalaryEvents(c, d, |events|)
  {
    out := events;
    if c.terms.salaryDay != 0 {
      var payDay := ClampedDay(c, c.terms.salaryDay);
      if c.first <= payDay <= c.last {
        out := out + [Simple(c, |out| + 1, At(payDay, 5 * 3600 + d.salaryMinute % 60 * 60), payDay,
                             "transfer_in", c.terms.salaryAmount)];
      }
    }
  }

  function MandateEvents(c: Context, mandates: seq<MandateDraw>, before: nat): seq<Event>
    requires OwnCards(c)
  {
    if mandates == [] then []
    else
      var front, m := MandateEvents(c, mandates[..|mandates| - 1], before), mandates[|mandates| - 1];
      var day := ClampedDay(c, m.dayOfMonth);
      if !(c.first <= day <= c.last) || c.cardIds == [] || !Usable(c, c.cardIds[0], day) then front
      else
        var when := At(day, 2 * 3600 + m.second % (4 * 3600));
        front + [CardPurchase(c, before + |front| + 1, when, day, c.cardIds[0], m.amount)]
  }

  method Mandates(c: Context, d: MonthDraws, v: Vocabulary, events: seq<Event>) returns (out: seq<Event>)
    requires OwnCards(c) && KnownTypes(v, d) && AllProper(c, v, events)
    ensures AllProper(c, v, out) && out == events + MandateEvents(c, d.mandates, |events|)
  {
    out := events;
    for i := 0 to |d.mandates|
      invariant AllProper(c, v, out) && out == events + MandateEvents(c, d.mandates[..i], |events|)
    {
      assert d.mandates[..i + 1][..i] == d.mandates[..i];
      var day := ClampedDay(c, d.mandates[i].dayOfMonth);
      if !(c.first <= day <= c.last) || c.cardIds == [] || !Usable(c, c.cardIds[0], day) {
        continue;
      }
      var at := At(day, 2 * 3600 + d.mandates[i].second % (4 * 3600));
      out := out + [CardPurchase(c, |out| + 1, at, day, c.cardIds[0], d.mandates[i].amount)];
    }
    assert d.mandates[..|d.mandates|] == d.mandates;
  }

  /** A burst's later purchases are minutes after its first, on whatever day that reaches. */
  function BurstAt(day: int, b: BurstDraw, step: nat): (instant: int)
    requires step < |b.steps|
    ensures day * DAY <= instant
  {
    At(day, b.second) + step * (2 + b.steps[step].gap % 6) * 60
  }

  function BurstSteps(c: Context, b: BurstDraw, day: int, cardId: nat, n: nat, before: nat): (events: seq<Event>)
    requires n <= |b.steps|
    ensures |events| == n
  {
    if n == 0 then []
    else BurstSteps(c, b, day, cardId, n - 1, before)
         + [CardPurchase(c, before + n, BurstAt(day, b, n - 1), day, cardId, b.steps[n - 1].amount)]
  }

  function BurstEvents(c: Context, burst: Option<BurstDraw>, before: nat): seq<Event>
    requires c.first <= c.last && OwnCards(c)
  {
    if burst.None? || c.cardIds == [] then []
    else
      var b := burst.value;
      var day, cardId := DrawnDay(c, b.dayOffset), c.cardIds[b.cardPick % |c.cardIds|];
      if Usable(c, cardId, day) then BurstSteps(c, b, day, cardId, |b.steps|, before) else []
  }

  method Burst(c: Context, d: MonthDraws, v: Vocabulary, events: seq<Event>) returns (out: seq<Event>)
    requires c.first <= c.last && OwnCards(c) && KnownTypes(v, d) && AllProper(c, v, events)
    ensures AllProper(c, v, out) && out == events + BurstEvents(c, d.burst, |events|)
  {
    out := events;
    if d.burst.None? || c.cardIds == [] {
      return;
    }
    var b := d.burst.value;
    var day, cardId := DrawnDay(c, b.dayOffset), c.cardIds[b.cardPick % |c.cardIds|];
    if !Usable(c, cardId, day) {
      return;
    }
    for step := 0 to |b.steps|
      invariant AllProper(c, v, out) && out == events + BurstSteps(c, b, day, cardId, step, |events|)
    {
      out := out + [CardPurchase(c, |out| + 1, BurstAt(day, b, step), day, cardId, b.steps[step].amount)];
    }
  }

  function FeeEvents(c: Context, fees: seq<FeeDraw>, before: nat): seq<Event>
    requires c.first <= c.last
  {
    if fees == [] then []
    else
      var front, fee := FeeEvents(c, fees[..|fees| - 1], before), fees[|fees| - 1];
      if !fee.fires then front
      else
        var day := DrawnDay(c, fee.dayOffset);
        front
          + [Simple(c, before + |front| + 1, At(day, 2 * 3600 + fee.minute % 60 * 60), day, fee.typeCode, fee.amount)]
  }

  method Fees(c: Context, d: MonthDraws, v: Vocabulary, events: seq<Event>) returns (out: seq<Event>)
    requires c.first <= c.last && KnownTypes(v, d) && AllProper(c, v, events)
    ensures AllProper(c, v, out) && out == events + FeeEvents(c, d.fees, |events|)
  {
    out := events;
    for i := 0 to |d.fees|
      invariant AllProper(c, v, out) && out == events + FeeEvents(c, d.fees[..i], |events|)
    {
      assert d.fees[..i + 1][..i] == d.fees[..i];
      var fee := d.fees[i];
      if !fee.fires {
        continue;
      }
      var day := DrawnDay(c, fee.dayOffset);
      out := out + [Simple(c, |out| + 1, At(day, 2 * 3600 + fee.minute % 60 * 60), day, fee.typeCode, fee.amount)];
    }
    assert d.fees[..|d.fees|] == d.fees;
  }

  function PaymentEvents(c: Context, payments: seq<PaymentDraw>, before: nat): (events: seq<Event>)
    requires c.first <= c.last
    ensures |events| == |payments|
  {
    if payments == [] then []
    else
      var front, p := PaymentEvents(c, payments[..|payments| - 1], before), payments[|payments| - 1];
      var day := DrawnDay(c, p.dayOffset);
      front + [Event(At(day, p.second), c.accountId, before + |payments|, day,
                     Payment(p.typeCode, p.scheme, p.status, p.amount, c.terms.currency, p.settleLag))]
  }

  method Payments(c: Context, d: MonthDraws, v: Vocabulary, events: seq<Event>) returns (out: seq<Event>)
    requires c.first <= c.last && KnownTypes(v, d) && AllProper(c, v, events)
    ensures AllProper(c, v, out) && out == events + PaymentEvents(c, d.payments, |events|)
  {
    out := events;
    for i := 0 to |d.payments|
      invariant AllProper(c, v, out) && out == events + PaymentEvents(c, d.payments[..i], |events|)
    {
      assert d.payments[..i + 1][..i] == d.payments[..i];
      var p := d.payments[i];
      var day := DrawnDay(c, p.dayOffset);
      out := out + [Event(At(day, p.second), c.accountId, |out| + 1, day,
                          Payment(p.typeCode, p.scheme, p.status, p.amount, c.terms.currency, p.settleLag))];
    }
    assert d.payments[..|d.payments|] == d.payments;
  }

  /** Everything an account does in a month: the sections in order, each numbered after the ones before it. */
  function MonthOf(c: Context, status: AccountStatus, d: MonthDraws): seq<Event>
    requires c.first <= c.last && OwnCards(c)
  {
    if status == Dormant then []
    else
      var opening := OpeningEvents(c, d);
      var regular := opening + RegularEvents(c, d.regular, |opening|);
      var salary := regular + SalaryEvents(c, d, |regular|);
      var mandates := salary + MandateEvents(c, d.mandates, |salary|);
      var burst := mandates + BurstEvents(c, d.burst, |mandates|);
      var fees := burst + FeeEvents(c, d.fees, |burst|);
      fees + PaymentEvents(c, d.payments, |fees|)
  }

  /** One account's events for one month; a dormant account has none, its opening deposit included. */
  method AccountMonth(c: Context, status: AccountStatus, d: MonthDraws, v: Vocabulary) returns (events: seq<Event>)
    requires c.first <= c.last && OwnCards(c) && KnownTypes(v, d)
    ensures AllProper(c, v, events) && events == MonthOf(c, status, d)
  {
    if status == Dormant {
      return [];
    }
    events := OpeningDeposit(c, d, v);
    events := Regular(c, d, v, events);
    events := Salary(c, d, v, events);
    events := Mandates(c, d, v, events);
    events := Burst(c, d, v, events);
    events := Fees(c, d, v, events);
    events := Payments(c, d, v, events);
  }

  /** The drawn day is the day a claim can be made about: a burst started before midnight ends the next day. */
  lemma {:induction false} BurstMayCrossMidnight()
    ensures exists day: int, b: BurstDraw, step: nat :: step < |b.steps| && DayOf(BurstAt(day, b, step)) != day
  {
    var b := BurstDraw(0, 0, DAY - 60, [BurstStep(0, 1), BurstStep(0, 1)]);
    assert DayOf(BurstAt(100, b, 1)) == 101;
  }
}
