/** The lending funnel: which loans are disbursed, what is repaid when, and until when an account must stay open. */
module Lending {
  import opened Rows
  import opened Calendar
  import opened Sorting

  /** A loan cash flow for the movement pass: positive credits the customer, negative debits them. */
  datatype CashEvent = CashEvent(
    when: int, accountId: nat, amount: int, sourceId: nat, currency: string, principal: Option<int>)

  datatype Installment = Installment(number: nat, dueDay: int, dueAmount: int, principalPart: int, interestPart: int)

  function PrincipalPart(): Installment -> int {
    (i: Installment) => i.principalPart
  }

  /** The day an installment falls due: a month after the loan was paid out, and every month after that. */
  function DueDay(disbursedDay: int, i: nat): int
    requires disbursedDay >= 1
  {
    Ordinal(AddMonths(AddMonths(DateOf(disbursedDay), 1), i))
  }

  function DueDays(disbursedDay: int): nat -> int
    requires disbursedDay >= 1
  {
    (i: nat) => DueDay(disbursedDay, i)
  }

  /** The first installment falls due at least four weeks after the loan is paid out, each later one between four
      weeks and thirty-one days after the one before. */
  lemma {:induction false} DueDaysAreSpaced(disbursedDay: int, i: nat)
    requires disbursedDay >= 1
    ensures disbursedDay + 28 * (i + 1) <= DueDay(disbursedDay, i)
    ensures DueDay(disbursedDay, i) + 28 <= DueDay(disbursedDay, i + 1) <= DueDay(disbursedDay, i) + 31
  {
    var disbursed := DateOf(disbursedDay);
    AddMonthsAdvances(disbursed, 1);
    AddMonthsAdvances(AddMonths(disbursed, 1), i);
    NextMonthIsSpaced(AddMonths(disbursed, 1), i);
  }

  /** The payment covers the interest on whatever is still owed. */
  ghost predicate Covers(payment: int, interestOn: int -> int, principal: int) {
    principal >= 0 && forall owed :: 0 <= owed <= principal ==> 0 <= interestOn(owed) <= payment
  }

  /** No installment takes back what was repaid, and none is less than nothing. */
  ghost predicate NeverNegative(plan: seq<Installment>) {
    forall i :: 0 <= i < |plan| ==> plan[i].principalPart >= 0 && plan[i].dueAmount >= 0
  }

  /** What is still owed after `n` payments: each pays its interest first, and no more than is owed. */
  function Owed(principal: int, payment: int, interestOn: int -> int, n: nat): int {
    if n == 0 then principal
    else
      var owed := Owed(principal, payment, interestOn, n - 1);
      owed - Min(payment - interestOn(owed), owed)
  }

  /** One installment of a plan. `interestOn` is the rounded monthly interest on an outstanding amount, `dueOn` the
      installments' due days; the last one repays whatever is left. */
  function InstallmentAt(
    principal: int, payment: int, interestOn: int -> int, term: nat, dueOn: nat -> int, i: nat): Installment
  {
    var owed := Owed(principal, payment, interestOn, i);
    var part := if i + 1 == term then owed else Min(payment - interestOn(owed), owed);
    Installment(i + 1, dueOn(i), part + interestOn(owed), part, interestOn(owed))
  }

  function PlanUpTo(
    principal: int, payment: int, interestOn: int -> int, term: nat, dueOn: nat -> int, n: nat): seq<Installment>
  {
    seq(n, (i: nat) => InstallmentAt(principal, payment, interestOn, term, dueOn, i))
  }

  lemma {:induction false} NextInstallment(
    principal: int, payment: int, interestOn: int -> int, term: nat, dueOn: nat -> int, n: nat)
    ensures PlanUpTo(principal, payment, interestOn, term, dueOn, n + 1)
         == PlanUpTo(principal, payment, interestOn, term, dueOn, n)
            + [InstallmentAt(principal, payment, interestOn, term, dueOn, n)]
  {
  }

  /** The principal parts of a plan cut short repay what is no longer owed; those of a whole plan repay everything. */
  lemma {:induction false} PartsRepay(
    principal: int, payment: int, interestOn: int -> int, term: nat, dueOn: nat -> int, n: nat)
    requires n <= term
    ensures Sum(PlanUpTo(principal, payment, interestOn, term, dueOn, n), PrincipalPart())
         == if n < term || n == 0 then principal - Owed(principal, payment, interestOn, n) else principal
  {
    if n > 0 {
      PartsRepay(principal, payment, interestOn, term, dueOn, n - 1);
      NextInstallment(principal, payment, interestOn, term, dueOn, n - 1);
      SumAppend(PlanUpTo(principal, payment, interestOn, term, dueOn, n - 1),
                InstallmentAt(principal, payment, interestOn, term, dueOn, n - 1), PrincipalPart());
    }
  }

  /** Where the payment covers the interest, what is owed only falls, and never below nothing. */
  lemma {:induction false} OwedFalls(principal: int, payment: int, interestOn: int -> int, n: nat)
    requires Covers(payment, interestOn, principal)
    ensures 0 <= Owed(principal, payment, interestOn, n) <= principal
  {
    if n > 0 {
      OwedFalls(principal, payment, interestOn, n - 1);
    }
  }

  /** The installment plan, payment by payment. */
  method Schedule(principal: int, payment: int, interestOn: int -> int, term: nat, dueOn: nat -> int)
    returns (plan: seq<Installment>)
    ensures plan == PlanUpTo(principal, payment, interestOn, term, dueOn, term)
  {
    var outstanding := principal;
    plan := [];
    for number := 1 to term + 1
      invariant plan == PlanUpTo(principal, payment, interestOn, term, dueOn, number - 1)
      invariant number <= term ==> outstanding == Owed(principal, payment, interestOn, number - 1)
    {
      NextInstallment(principal, payment, interestOn, term, dueOn, number - 1);
      var interest := interestOn(outstanding);
      var part := if number == term then outstanding else Min(payment - interest, outstanding);
      plan := plan + [Installment(number, dueOn(number - 1), part + interest, part, interest)];
      outstanding := outstanding - part;
    }
  }

  datatype Outcome = Undecided | Withdrawn | Lapsed | Decided(lagHours: nat, approved: bool, amount: nat)

  /** A raw number stands for a draw from any range; the source's probabilities are left free. */
  datatype InstallmentDraw = InstallmentDraw(
    late: bool, lateDays: nat, early: nat, cures: bool, cureDays: nat, second: nat
  )

  datatype ApplicationDraw = ApplicationDraw(
    offset: nat, second: nat, outcome: Outcome, disburses: bool, disbursementLag: nat, disbursementSecond: nat,
    term: nat, payment: int, interestOn: int -> int, defaultMonth: Option<nat>, installments: nat -> InstallmentDraw)

  /** The day an installment is paid, or none: on time, late, or cured after the borrower stopped. */
  function PaidDay(i: Installment, d: InstallmentDraw, defaultMonth: Option<nat>, anchorDay: int): Option<int> {
    var stopped := defaultMonth.Some? && i.number >= defaultMonth.value;
    var inFuture := i.dueDay > anchorDay;
    if !inFuture && !stopped then
      var day := if d.late then i.dueDay + 1 + d.lateDays else i.dueDay - d.early % 3;
      if day <= anchorDay then Some(day) else None
    else if !inFuture && stopped && d.cures then
      var day := i.dueDay + 35 + d.cureDays % 60;
      if day <= anchorDay then Some(day) else None
    else None
  }

  /** The day a loan is disbursed, or none when the application did not lead to one. */
  function DisbursedDay(a: ApplicationDraw, appliedAt: int, opening: int, anchorDay: int): (day: Option<int>)
    requires opening <= anchorDay
    ensures day.Some? ==> opening <= day.value <= anchorDay
    ensures day.Some? ==> a.outcome.Decided? && a.outcome.approved && a.outcome.amount > 0
  {
    if !a.outcome.Decided? then None
    else
      var decidedAt := appliedAt + a.outcome.lagHours * 3600;
      if decidedAt > anchorDay * DAY + DAY - 1 || !a.outcome.approved || a.outcome.amount == 0 || !a.disburses then None
      else
        var day := DayOf(decidedAt) + a.disbursementLag;
        if day > anchorDay then None else Some(Max(day, opening))
  }

  /** A cash flow lands between its account's opening day and the anchor. */
  ghost predicate InBook(e: CashEvent, openedOn: seq<int>, anchorDay: int) {
    1 <= e.accountId <= |openedOn| && openedOn[e.accountId - 1] <= DayOf(e.when) <= anchorDay
    && (e.principal.None? ==> e.amount > 0)
  }

  ghost predicate AllInBook(events: seq<CashEvent>, openedOn: seq<int>, anchorDay: int) {
    forall i :: 0 <= i < |events| ==> InBook(events[i], openedOn, anchorDay)
  }

  function CashKey(): CashEvent -> Key {
    (e: CashEvent) => Key(e.when, e.accountId, e.sourceId)
  }

  /** A loan that is granted: on which account, on which day, and everything drawn for it. */
  datatype Grant = Grant(account: nat, day: int, draw: ApplicationDraw) {
    function Amount(): nat {
      if draw.outcome.Decided? then draw.outcome.amount else 0
    }

    function Term(): nat {
      1 + draw.term
    }
  }

  datatype Loan = Loan(grant: Grant, plan: seq<Installment>)

  /** The plan a grant has. */
  function PlanOf(g: Grant): seq<Installment>
    requires g.day >= 1
  {
    PlanUpTo(g.Amount(), g.draw.payment, g.draw.interestOn, g.Term(), DueDays(g.day), g.Term())
  }

  ghost predicate PlanSound(loan: Loan) {
    loan.grant.day >= 1 && loan.plan == PlanOf(loan.grant)
  }

  /** A plan repays its loan exactly, installment by installment; where the payment covers the interest, never
      backwards. */
  lemma {:induction false} PlanRepaysExactly(loan: Loan)
    requires PlanSound(loan)
    ensures |loan.plan| == loan.grant.Term() && Sum(loan.plan, PrincipalPart()) == loan.grant.Amount()
    ensures forall i :: 0 <= i < |loan.plan| ==>
              && loan.plan[i].number == i + 1 && loan.plan[i].dueDay == DueDay(loan.grant.day, i)
              && loan.plan[i].dueAmount == loan.plan[i].principalPart + loan.plan[i].interestPart
    ensures Covered(loan.grant) ==> NeverNegative(loan.plan)
  {
    var g := loan.grant;
    var amount, payment, interestOn, term := g.Amount(), g.draw.payment, g.draw.interestOn, g.Term();
    PartsRepay(amount, payment, interestOn, term, DueDays(g.day), term);
    forall i | 0 <= i < |loan.plan|
      ensures loan.plan[i] == InstallmentAt(amount, payment, interestOn, term, DueDays(g.day), i)
      ensures Covered(g) ==> loan.plan[i].principalPart >= 0 && loan.plan[i].dueAmount >= 0
    {
      if Covered(g) {
        OwedFalls(amount, payment, interestOn, i);
      }
    }
  }

  /** Every installment falls due four weeks after the loan is paid out, or later. */
  ghost predicate FallsDue(plan: seq<Installment>, day: int) {
    forall i :: 0 <= i < |plan| ==> day + 28 <= plan[i].dueDay
  }

  lemma {:induction false} PlansFallDue(loan: Loan)
    requires PlanSound(loan)
    ensures FallsDue(loan.plan, loan.grant.day)
  {
    PlanRepaysExactly(loan);
    forall i | 0 <= i < |loan.plan| ensures loan.grant.day + 28 <= loan.plan[i].dueDay {
      DueDaysAreSpaced(loan.grant.day, i);
    }
  }

  ghost predicate Covered(g: Grant) {
    Covers(g.draw.payment, g.draw.interestOn, g.Amount())
  }

  // ---------------------------------------------------------------- the level payment

  function Power(base: real, n: nat): (power: real)
    ensures base >= 1.0 ==> power >= 1.0
    ensures base > 1.0 && n > 0 ==> power > 1.0
  {
    if n == 0 then 1.0 else Power(base, n - 1) * base
  }

  /** Half a minor unit rounds up. */
  function Rounded(amount: real): int {
    (amount + 0.5).Floor
  }

  /** A month's interest on what is owed. */
  function OneMonth(owed: int, monthly: real): real {
    owed as real * monthly
  }

  function Interest(monthly: real): int -> int {
    (owed: int) => Rounded(OneMonth(owed, monthly))
  }

  function Level(interest: real, factor: real): real
    requires factor > 1.0
  {
    interest * factor / (factor - 1.0)
  }

  /** The level monthly payment; a loan without interest is paid back in equal parts. */
  function Annuity(principal: nat, monthly: real, term: nat): int
    requires monthly >= 0.0 && term > 0
  {
    if monthly == 0.0 then Rounded(principal as real / term as real)
    else Rounded(Level(OneMonth(principal, monthly), Power(1.0 + monthly, term)))
  }

  lemma {:induction false} RoundingKeepsOrder(a: real, b: real)
    requires a <= b
    ensures Rounded(a) <= Rounded(b)
  {
  }

  lemma {:induction false} NoAmountRoundsBelowNothing(amount: real)
    requires amount >= 0.0
    ensures Rounded(amount) >= 0
  {
  }

  lemma {:induction false} QuotientIsAbove(x: real, y: real, d: real)
    requires d > 0.0 && y * d <= x
    ensures y <= x / d
  {
    var q := x / d;
    assert q * d == x;
    if q < y {
      assert (y - q) * d > 0.0;
    }
  }

  /** The level payment is more than the interest on everything. */
  lemma {:induction false} LevelIsAboveInterest(interest: real, factor: real)
    requires interest >= 0.0 && factor > 1.0
    ensures interest <= Level(interest, factor)
  {
    QuotientIsAbove(interest * factor, interest, factor - 1.0);
  }

  lemma {:induction false} InterestGrows(owed: int, principal: int, monthly: real)
    requires 0 <= owed <= principal && monthly >= 0.0
    ensures 0.0 <= OneMonth(owed, monthly) <= OneMonth(principal, monthly)
  {
  }

  lemma {:induction false} EqualPartsCoverNothing(principal: nat, term: nat, owed: int)
    requires term > 0
    ensures Rounded(OneMonth(owed, 0.0)) == 0 <= Rounded(principal as real / term as real)
  {
    QuotientIsAbove(principal as real, 0.0, term as real);
    NoAmountRoundsBelowNothing(principal as real / term as real);
  }

  /** The level payment covers the interest on whatever is still owed. */
  lemma {:induction false} AnnuityCovers(principal: nat, monthly: real, term: nat)
    requires monthly >= 0.0 && term > 0
    ensures Covers(Annuity(principal, monthly, term), Interest(monthly), principal)
  {
    forall owed | 0 <= owed <= principal
      ensures 0 <= Interest(monthly)(owed) <= Annuity(principal, monthly, term)
    {
      if monthly == 0.0 {
        EqualPartsCoverNothing(principal, term, owed);
      } else {
        InterestGrows(owed, principal, monthly);
        LevelIsAboveInterest(OneMonth(principal, monthly), Power(1.0 + monthly, term));
        NoAmountRoundsBelowNothing(OneMonth(owed, monthly));
        RoundingKeepsOrder(OneMonth(owed, monthly), Level(OneMonth(principal, monthly), Power(1.0 + monthly, term)));
      }
    }
  }

  /** A grant whose payment and interest are the formula's, at a monthly rate. */
  ghost predicate ByAnnuity(g: Grant, monthly: real) {
    && monthly >= 0.0 && g.draw.payment == Annuity(g.Amount(), monthly, g.Term())
    && forall owed :: g.draw.interestOn(owed) == Interest(monthly)(owed)
  }

  lemma {:induction false} AnnuitiesAreCovered(g: Grant, monthly: real)
    requires ByAnnuity(g, monthly)
    ensures Covered(g)
  {
    AnnuityCovers(g.Amount(), monthly, g.Term());
  }

  /** The cash flow of a paid installment, carrying the principal it repays. */
  function PaidEvent(
    i: Installment, d: InstallmentDraw, g: Grant, id: nat, currency: string, anchorDay: int): Option<CashEvent> {
    var paidDay := PaidDay(i, d, g.draw.defaultMonth, anchorDay);
    if paidDay.None? then None
    else Some(CashEvent(paidDay.value * DAY + d.second % DAY, g.account, -i.dueAmount, id, currency,
                        Some(i.principalPart)))
  }

  /** A paid installment's cash flow falls after its loan was paid out, so in its account's life. */
  lemma {:induction false} PaidInBook(
    i: Installment, d: InstallmentDraw, g: Grant, id: nat, currency: string, openedOn: seq<int>, anchorDay: int)
    requires 1 <= g.account <= |openedOn| && openedOn[g.account - 1] <= g.day && g.day + 28 <= i.dueDay
    ensures var paid := PaidEvent(i, d, g, id, currency, anchorDay); paid.Some? ==>
              InBook(paid.value, openedOn, anchorDay)
  {
    var paidDay := PaidDay(i, d, g.draw.defaultMonth, anchorDay);
    if paidDay.Some? {
      assert DayOf(paidDay.value * DAY + d.second % DAY) == paidDay.value;
    }
  }

  /** The paid installments of a plan, numbered after the `before` installments already written. */
  function PaidEvents(plan: seq<Installment>, g: Grant, before: nat, currency: string, anchorDay: int): seq<CashEvent> {
    if plan == [] then []
    else
      var n := |plan|;
      var paid := PaidEvent(plan[n - 1], g.draw.installments(n - 1), g, before + n, currency, anchorDay);
      PaidEvents(plan[..n - 1], g, before, currency, anchorDay) + if paid.Some? then [paid.value] else []
  }

  function Disbursement(g: Grant, id: nat, currency: string): CashEvent {
    CashEvent(g.day * DAY + g.draw.disbursementSecond % DAY, g.account, g.Amount(), id, currency, None)
  }

  lemma {:induction false} DisbursementInBook(g: Grant, id: nat, currency: string, openedOn: seq<int>, anchorDay: int)
    requires 1 <= g.account <= |openedOn| && openedOn[g.account - 1] <= g.day <= anchorDay && g.Amount() > 0
    ensures InBook(Disbursement(g, id, currency), openedOn, anchorDay)
  {
    assert DayOf(g.day * DAY + g.draw.disbursementSecond % DAY) == g.day;
  }

  function Installments(made: seq<Loan>): nat {
    if made == [] then 0 else Installments(made[..|made| - 1]) + |made[|made| - 1].plan|
  }

  /** The cash flows of the loans made so far, in the order they are written. */
  function Cash(made: seq<Loan>, currency: nat -> string, anchorDay: int): seq<CashEvent> {
    if made == [] then []
    else
      var front, last := made[..|made| - 1], made[|made| - 1];
      Cash(front, currency, anchorDay)
      + PaidEvents(last.plan, last.grant, Installments(front), currency(last.grant.account), anchorDay)
      + [Disbursement(last.grant, |made|, currency(last.grant.account))]
  }

  lemma {:induction false} CashNext(made: seq<Loan>, loan: Loan, currency: nat -> string, anchorDay: int)
    ensures Installments(made + [loan]) == Installments(made) + |loan.plan|
    ensures Cash(made + [loan], currency, anchorDay)
         == Cash(made, currency, anchorDay)
            + PaidEvents(loan.plan, loan.grant, Installments(made), currency(loan.grant.account), anchorDay)
            + [Disbursement(loan.grant, |made| + 1, currency(loan.grant.account))]
  {
    assert (made + [loan])[..|made|] == made;
  }

  /** A grant's installment plan. */
  method Plan(g: Grant) returns (plan: seq<Installment>)
    requires g.day >= 1
    ensures PlanSound(Loan(g, plan))
  {
    plan := Schedule(g.Amount(), g.draw.payment, g.draw.interestOn, g.Term(), DueDays(g.day));
  }

  /** An account is held exactly until its last loan movement. */
  ghost predicate HeldUntilLast(cash: seq<CashEvent>, holdUntil: map<nat, int>) {
    && (forall i :: 0 <= i < |cash| ==>
          cash[i].accountId in holdUntil && DayOf(cash[i].when) <= holdUntil[cash[i].accountId])
    && (forall a :: a in holdUntil ==>
          exists i :: 0 <= i < |cash| && cash[i].accountId == a && DayOf(cash[i].when) == holdUntil[a])
  }

  /** Only one set of holds is right for a list of cash flows. */
  lemma {:induction false} OneSetOfHolds(cash: seq<CashEvent>, one: map<nat, int>, other: map<nat, int>)
    requires HeldUntilLast(cash, one) && HeldUntilLast(cash, other)
    ensures one == other
  {
    forall a | a in one ensures a in other && one[a] == other[a] {
      var i :| 0 <= i < |cash| && cash[i].accountId == a && DayOf(cash[i].when) == one[a];
      assert a in other && one[a] <= other[a];
      var j :| 0 <= j < |cash| && cash[j].accountId == a && DayOf(cash[j].when) == other[a];
      assert other[a] <= one[a];
    }
    forall a | a in other ensures a in one {
      var j :| 0 <= j < |cash| && cash[j].accountId == a && DayOf(cash[j].when) == other[a];
    }
  }

  /** A list of grants makes one list of loans. */
  lemma {:induction false} OneListOfLoans(one: seq<Loan>, other: seq<Loan>)
    requires PlansSound(one) && PlansSound(other) && GrantsOf(one) == GrantsOf(other)
    ensures one == other
  {
    assert |GrantsOf(one)| == |one| && |GrantsOf(other)| == |other|;
    forall i | 0 <= i < |one| ensures one[i] == other[i] {
      GrantOfEach(one, i);
      GrantOfEach(other, i);
      assert PlanSound(one[i]) && PlanSound(other[i]);
    }
  }

  lemma {:induction false} GrantOfEach(made: seq<Loan>, i: nat)
    requires i < |made|
    ensures GrantsOf(made)[i] == made[i].grant
  {
    if i < |made| - 1 {
      GrantOfEach(made[..|made| - 1], i);
    }
  }

  /** Each loan was paid out to an account of the book, on or after its opening day and by the anchor. */
  ghost predicate GrantsInBook(made: seq<Loan>, openedOn: seq<int>, anchorDay: int) {
    forall i :: 0 <= i < |made| ==> GrantInBook(made[i].grant, openedOn, anchorDay)
  }

  predicate GrantInBook(g: Grant, openedOn: seq<int>, anchorDay: int) {
    1 <= g.account <= |openedOn| && openedOn[g.account - 1] <= g.day <= anchorDay && g.Amount() > 0
  }

  lemma {:induction false} PaidEventsInBook(
    plan: seq<Installment>, g: Grant, before: nat, currency: string, openedOn: seq<int>, anchorDay: int, e: CashEvent)
    requires GrantInBook(g, openedOn, anchorDay) && FallsDue(plan, g.day)
    requires e in PaidEvents(plan, g, before, currency, anchorDay)
    ensures InBook(e, openedOn, anchorDay)
  {
    var n := |plan|;
    if e in PaidEvents(plan[..n - 1], g, before, currency, anchorDay) {
      PaidEventsInBook(plan[..n - 1], g, before, currency, openedOn, anchorDay, e);
    } else {
      PaidInBook(plan[n - 1], g.draw.installments(n - 1), g, before + n, currency, openedOn, anchorDay);
    }
  }

  /** Every loan cash flow lands in its account's life. */
  lemma {:induction false} CashInBook(made: seq<Loan>, currency: nat -> string, openedOn: seq<int>, anchorDay: int)
    requires PlansSound(made) && GrantsInBook(made, openedOn, anchorDay)
    ensures AllInBook(Cash(made, currency, anchorDay), openedOn, anchorDay)
  {
    if made != [] {
      var front, last := made[..|made| - 1], made[|made| - 1];
      CashInBook(front, currency, openedOn, anchorDay);
      PlansFallDue(last);
      var cash := Cash(made, currency, anchorDay);
      forall i | |Cash(front, currency, anchorDay)| <= i < |cash| ensures InBook(cash[i], openedOn, anchorDay) {
        LoanCashInBook(last, Installments(front), |made|, currency(last.grant.account), openedOn, anchorDay, cash[i]);
      }
    }
  }

  lemma {:induction false} LoanCashInBook(
    loan: Loan, before: nat, id: nat, currency: string, openedOn: seq<int>, anchorDay: int, e: CashEvent)
    requires FallsDue(loan.plan, loan.grant.day) && GrantInBook(loan.grant, openedOn, anchorDay)
    requires e in PaidEvents(loan.plan, loan.grant, before, currency, anchorDay)
             || e == Disbursement(loan.grant, id, currency)
    ensures InBook(e, openedOn, anchorDay)
  {
    if e == Disbursement(loan.grant, id, currency) {
      DisbursementInBook(loan.grant, id, currency, openedOn, anchorDay);
    } else {
      PaidEventsInBook(loan.plan, loan.grant, before, currency, openedOn, anchorDay, e);
    }
  }

  class LoanBook {
    var cashEvents: seq<CashEvent>
    var holdUntil: map<nat, int>
    var loans: nat
    var installments: nat

    constructor ()
      ensures cashEvents == [] && holdUntil == map[] && loans == installments == 0
    {
      cashEvents, holdUntil, loans, installments := [], map[], 0, 0;
    }

    /** The book holds the cash flows of exactly these loans. */
    ghost predicate Holds(made: seq<Loan>, currency: nat -> string, anchorDay: int)
      reads this
    {
      && loans == |made| && installments == Installments(made) && cashEvents == Cash(made, currency, anchorDay)
      && holdUntil == map[]
    }

    /** Writes a plan's installments, and a cash flow for each one paid. */
    method WritePlan(plan: seq<Installment>, g: Grant, currency: string, anchorDay: int)
      modifies this`cashEvents, this`installments
      ensures installments == old(installments) + |plan|
      ensures cashEvents == old(cashEvents) + PaidEvents(plan, g, old(installments), currency, anchorDay)
    {
      for i := 0 to |plan|
        invariant installments == old(installments) + i
        invariant cashEvents == old(cashEvents) + PaidEvents(plan[..i], g, old(installments), currency, anchorDay)
      {
        assert plan[..i + 1][..i] == plan[..i];
        installments := installments + 1;
        var draw := g.draw.installments(i);
        var paidDay := PaidDay(plan[i], draw, g.draw.defaultMonth, anchorDay);
        if paidDay.Some? {
          cashEvents := cashEvents + [CashEvent(paidDay.value * DAY + draw.second % DAY, g.account, -plan[i].dueAmount,
                                                installments, currency, Some(plan[i].principalPart))];
        }
      }
      assert plan[..|plan|] == plan;
    }

    /** Writes one loan: its plan, the installments that are paid, and the money paid out. */
    method WriteLoan(g: Grant, plan: seq<Installment>, currency: string, anchorDay: int)
      modifies this`cashEvents, this`loans, this`installments
      ensures loans == old(loans) + 1 && installments == old(installments) + |plan|
      ensures cashEvents == old(cashEvents) + PaidEvents(plan, g, old(installments), currency, anchorDay)
                            + [Disbursement(g, loans, currency)]
    {
      loans := loans + 1;
      WritePlan(plan, g, currency, anchorDay);
      cashEvents := cashEvents + [CashEvent(g.day * DAY + g.draw.disbursementSecond % DAY, g.account, g.Amount(), loans,
                                            currency, None)];
    }

    /** Disburses one loan on its plan. */
    method Disburse(
      g: Grant, currency: nat -> string, anchorDay: int, ghost made: seq<Loan>)
      returns (ghost plan: seq<Installment>)
      requires Holds(made, currency, anchorDay) && g.day >= 1
      modifies this`cashEvents, this`loans, this`installments
      ensures PlanSound(Loan(g, plan)) && Holds(made + [Loan(g, plan)], currency, anchorDay)
    {
      var schedule := Plan(g);
      plan := schedule;
      WriteLoan(g, schedule, currency(g.account), anchorDay);
      CashNext(made, Loan(g, plan), currency, anchorDay);
    }

    /** The last day each account still has a loan movement on it. */
    method RecordHolds()
      requires holdUntil == map[]
      modifies this`holdUntil
      ensures HeldUntilLast(cashEvents, holdUntil)
    {
      for n := 0 to |cashEvents|
        invariant forall i :: 0 <= i < n ==>
                    cashEvents[i].accountId in holdUntil
                      && DayOf(cashEvents[i].when) <= holdUntil[cashEvents[i].accountId]
        invariant forall a :: a in holdUntil ==>
                    exists i :: 0 <= i < n && cashEvents[i].accountId == a && DayOf(cashEvents[i].when) == holdUntil[a]
      {
        var e := cashEvents[n];
        if e.accountId !in holdUntil || DayOf(e.when) > holdUntil[e.accountId] {
          holdUntil := holdUntil[e.accountId := DayOf(e.when)];
        }
      }
    }
  }

  /** When the customer's application reached the bank. */
  function AppliedAt(a: ApplicationDraw, signup: int, startDay: int, anchorDay: int): int {
    var from := Max(signup, startDay);
    Min(from + a.offset % (Max(0, anchorDay - from) + 1), anchorDay) * DAY + a.second % DAY
  }

  /** What each of the customer's applications leads to. */
  function Granted(
    customer: nat, signup: int, account: nat, opening: int, draws: (nat, nat) -> ApplicationDraw, startDay: int,
    anchorDay: int): nat -> Option<Grant>
    requires opening <= anchorDay
  {
    (k: nat) =>
      var a := draws(customer, k);
      var day := DisbursedDay(a, AppliedAt(a, signup, startDay, anchorDay), opening, anchorDay);
      if day.Some? then Some(Grant(account, day.value, a)) else None
  }

  /** The loans the first `n` applications lead to. */
  function OwnGrants(granted: nat -> Option<Grant>, n: nat): seq<Grant> {
    if n == 0 then [] else OwnGrants(granted, n - 1) + Granting(granted(n - 1))
  }

  function Granting(grant: Option<Grant>): seq<Grant> {
    if grant.Some? then [grant.value] else []
  }

  /** One customer's loans; a customer without a current account has none. */
  function TurnGrants(
    customer: nat, signup: int, account: Option<nat>, count: nat, draws: (nat, nat) -> ApplicationDraw,
    openedOn: seq<int>, startDay: int, anchorDay: int): seq<Grant>
    requires account.Some? ==> 1 <= account.value <= |openedOn| && openedOn[account.value - 1] <= anchorDay
  {
    if account.None? then []
    else OwnGrants(
           Granted(customer, signup, account.value, openedOn[account.value - 1], draws, startDay, anchorDay), count)
  }

  /** Every customer's loans. */
  function Grants(
    signup: seq<int>, currentAccount: nat -> Option<nat>, counts: nat -> nat, draws: (nat, nat) -> ApplicationDraw,
    openedOn: seq<int>, startDay: int, anchorDay: int): seq<Grant>
    requires forall i :: 0 <= i < |openedOn| ==> openedOn[i] <= anchorDay
    requires forall c :: currentAccount(c).Some? ==> 1 <= currentAccount(c).value <= |openedOn|
  {
    if signup == [] then []
    else
      var n := |signup|;
      Grants(signup[..n - 1], currentAccount, counts, draws, openedOn, startDay, anchorDay)
        + TurnGrants(n, signup[n - 1], currentAccount(n), counts(n), draws, openedOn, startDay, anchorDay)
  }

  lemma {:induction false} GrantsNext(
    signup: seq<int>, customer: nat, currentAccount: nat -> Option<nat>, counts: nat -> nat,
    draws: (nat, nat) -> ApplicationDraw, openedOn: seq<int>, startDay: int, anchorDay: int)
    requires 1 <= customer <= |signup| && forall i :: 0 <= i < |openedOn| ==> openedOn[i] <= anchorDay
    requires forall c :: currentAccount(c).Some? ==> 1 <= currentAccount(c).value <= |openedOn|
    ensures Grants(signup[..customer], currentAccount, counts, draws, openedOn, startDay, anchorDay)
         == Grants(signup[..customer - 1], currentAccount, counts, draws, openedOn, startDay, anchorDay)
            + TurnGrants(customer, signup[customer - 1], currentAccount(customer), counts(customer), draws, openedOn,
                         startDay, anchorDay)
  {
    assert signup[..customer][..customer - 1] == signup[..customer - 1];
  }

  function GrantsOf(made: seq<Loan>): (grants: seq<Grant>)
    ensures |grants| == |made|
  {
    if made == [] then [] else GrantsOf(made[..|made| - 1]) + [made[|made| - 1].grant]
  }

  lemma {:induction false} GrantsOfNext(made: seq<Loan>, loan: Loan)
    ensures GrantsOf(made + [loan]) == GrantsOf(made) + [loan.grant]
  {
    assert (made + [loan])[..|made|] == made;
  }

  ghost predicate PlansSound(made: seq<Loan>) {
    forall i :: 0 <= i < |made| ==> PlanSound(made[i])
  }

  lemma {:induction false} PlansNext(made: seq<Loan>, loan: Loan, openedOn: seq<int>, anchorDay: int)
    requires PlansSound(made) && PlanSound(loan) && GrantsInBook(made, openedOn, anchorDay)
    requires GrantInBook(loan.grant, openedOn, anchorDay)
    ensures PlansSound(made + [loan]) && GrantsInBook(made + [loan], openedOn, anchorDay)
  {
  }

  /** The book holds the cash flows of exactly these loans, every plan is sound, and every loan has its account. */
  ghost predicate Lent(book: LoanBook, made: seq<Loan>, currency: nat -> string, openedOn: seq<int>, anchorDay: int)
    reads book
  {
    book.Holds(made, currency, anchorDay) && PlansSound(made) && GrantsInBook(made, openedOn, anchorDay)
  }

  /** One application, which may lead to a loan. */
  method OneApplication(
    book: LoanBook, grant: Option<Grant>, currency: nat -> string, openedOn: seq<int>, anchorDay: int,
    ghost before: seq<Loan>)
    returns (ghost made: seq<Loan>)
    requires Lent(book, before, currency, openedOn, anchorDay)
    requires grant.Some? ==> grant.value.day >= 1 && GrantInBook(grant.value, openedOn, anchorDay)
    modifies book`cashEvents, book`loans, book`installments
    ensures Lent(book, made, currency, openedOn, anchorDay)
    ensures GrantsOf(made) == GrantsOf(before) + Granting(grant)
  {
    made := before;
    if grant.Some? {
      ghost var plan := book.Disburse(grant.value, currency, anchorDay, before);
      GrantsOfNext(before, Loan(grant.value, plan));
      PlansNext(before, Loan(grant.value, plan), openedOn, anchorDay);
      made := before + [Loan(grant.value, plan)];
    }
  }

  /** Whatever an application leads to is a loan to an account of the book, paid out in its life. */
  ghost predicate AllInReach(granted: nat -> Option<Grant>, openedOn: seq<int>, anchorDay: int) {
    forall k :: granted(k).Some? ==> granted(k).value.day >= 1 && GrantInBook(granted(k).value, openedOn, anchorDay)
  }

  lemma {:induction false} GrantedAreInReach(
    customer: nat, signup: int, account: nat, draws: (nat, nat) -> ApplicationDraw, openedOn: seq<int>, startDay: int,
    anchorDay: int)
    requires 1 <= account <= |openedOn| && 1 <= openedOn[account - 1] <= anchorDay
    ensures AllInReach(Granted(customer, signup, account, openedOn[account - 1], draws, startDay, anchorDay), openedOn,
                       anchorDay)
  {
    var granted := Granted(customer, signup, account, openedOn[account - 1], draws, startDay, anchorDay);
    forall k | granted(k).Some?
      ensures granted(k).value.day >= 1 && GrantInBook(granted(k).value, openedOn, anchorDay)
    {
      var a := draws(customer, k);
      var day := DisbursedDay(a, AppliedAt(a, signup, startDay, anchorDay), openedOn[account - 1], anchorDay);
      assert day.Some? && granted(k).value == Grant(account, day.value, a);
    }
  }

  /** One customer's applications, in turn. */
  method OneCustomer(
    book: LoanBook, granted: nat -> Option<Grant>, count: nat, currency: nat -> string, openedOn: seq<int>,
    anchorDay: int, ghost before: seq<Loan>)
    returns (ghost made: seq<Loan>)
    requires Lent(book, before, currency, openedOn, anchorDay) && AllInReach(granted, openedOn, anchorDay)
    modifies book`cashEvents, book`loans, book`installments
    ensures Lent(book, made, currency, openedOn, anchorDay)
    ensures GrantsOf(made) == GrantsOf(before) + OwnGrants(granted, count)
  {
    made := before;
    for k := 0 to count
      invariant Lent(book, made, currency, openedOn, anchorDay)
      invariant GrantsOf(made) == GrantsOf(before) + OwnGrants(granted, k)
    {
      Regroup(GrantsOf(before), OwnGrants(granted, k), Granting(granted(k)));
      made := OneApplication(book, granted(k), currency, openedOn, anchorDay, made);
    }
  }

  /** One customer's turn; a customer without a current account has none. */
  method Turn(
    book: LoanBook, customer: nat, signup: int, account: Option<nat>, count: nat, currency: nat -> string,
    draws: (nat, nat) -> ApplicationDraw, openedOn: seq<int>, startDay: int, anchorDay: int, ghost before: seq<Loan>)
    returns (ghost made: seq<Loan>)
    requires Lent(book, before, currency, openedOn, anchorDay)
    requires account.Some? ==> 1 <= account.value <= |openedOn| && 1 <= openedOn[account.value - 1] <= anchorDay
    modifies book`cashEvents, book`loans, book`installments
    ensures Lent(book, made, currency, openedOn, anchorDay)
    ensures GrantsOf(made)
         == GrantsOf(before) + TurnGrants(customer, signup, account, count, draws, openedOn, startDay, anchorDay)
  {
    made := before;
    if account.Some? {
      GrantedAreInReach(customer, signup, account.value, draws, openedOn, startDay, anchorDay);
      var granted := Granted(customer, signup, account.value, openedOn[account.value - 1], draws, startDay, anchorDay);
      made := OneCustomer(book, granted, count, currency, openedOn, anchorDay, before);
    }
  }

  /** Every customer's applications, in turn. */
  method EveryCustomer(
    startDay: int, anchorDay: int, signup: seq<int>, currentAccount: nat -> Option<nat>, currency: nat -> string,
    counts: nat -> nat, draws: (nat, nat) -> ApplicationDraw, openedOn: seq<int>)
    returns (book: LoanBook, ghost made: seq<Loan>)
    requires forall i :: 0 <= i < |openedOn| ==> 1 <= openedOn[i] <= anchorDay
    requires forall c :: currentAccount(c).Some? ==> 1 <= currentAccount(c).value <= |openedOn|
    ensures fresh(book) && Lent(book, made, currency, openedOn, anchorDay)
    ensures GrantsOf(made) == Grants(signup, currentAccount, counts, draws, openedOn, startDay, anchorDay)
  {
    book := new LoanBook();
    made := [];
    for customer := 1 to |signup| + 1
      invariant fresh(book) && Lent(book, made, currency, openedOn, anchorDay)
      invariant GrantsOf(made)
                == Grants(signup[..customer - 1], currentAccount, counts, draws, openedOn, startDay, anchorDay)
    {
      GrantsNext(signup, customer, currentAccount, counts, draws, openedOn, startDay, anchorDay);
      made := Turn(book, customer, signup[customer - 1], currentAccount(customer), counts(customer), currency, draws,
                   openedOn, startDay, anchorDay, made);
    }
    assert signup[..|signup|] == signup;
  }

  lemma {:induction false} SortedInBook(
    made: seq<Loan>, currency: nat -> string, openedOn: seq<int>, anchorDay: int)
    requires PlansSound(made) && GrantsInBook(made, openedOn, anchorDay)
    ensures AllInBook(SortedBy(Cash(made, currency, anchorDay), CashKey()), openedOn, anchorDay)
  {
    var cash := Cash(made, currency, anchorDay);
    var sorted := SortedBy(cash, CashKey());
    CashInBook(made, currency, openedOn, anchorDay);
    SortedByOrders(cash, CashKey());
    forall i | 0 <= i < |sorted| ensures InBook(sorted[i], openedOn, anchorDay) {
      SameMembers(sorted, cash, sorted[i]);
    }
  }

  /** Every customer's applications in turn, then the cash flows in time order with the holds they imply.
      `currentAccount` is the customer's first current account, if they have one. */
  method Generate(
    startDay: int, anchorDay: int, signup: seq<int>, currentAccount: nat -> Option<nat>, currency: nat -> string,
    counts: nat -> nat, draws: (nat, nat) -> ApplicationDraw, openedOn: seq<int>)
    returns (book: LoanBook, ghost made: seq<Loan>)
    requires forall i :: 0 <= i < |openedOn| ==> 1 <= openedOn[i] <= anchorDay
    requires forall c :: currentAccount(c).Some? ==> 1 <= currentAccount(c).value <= |openedOn|
    ensures fresh(book) && AllInBook(book.cashEvents, openedOn, anchorDay)
    ensures PlansSound(made)
            && GrantsOf(made) == Grants(signup, currentAccount, counts, draws, openedOn, startDay, anchorDay)
    ensures book.cashEvents == SortedBy(Cash(made, currency, anchorDay), CashKey())
    ensures HeldUntilLast(book.cashEvents, book.holdUntil)
  {
    book, made := EveryCustomer(startDay, anchorDay, signup, currentAccount, currency, counts, draws, openedOn);
    SortAndHold(book);
    SortedInBook(made, currency, openedOn, anchorDay);
  }

  /** The cash flows in time order, and the holds they imply. */
  method SortAndHold(book: LoanBook)
    requires book.holdUntil == map[]
    modifies book`cashEvents, book`holdUntil
    ensures book.cashEvents == SortedBy(old(book.cashEvents), CashKey())
    ensures HeldUntilLast(book.cashEvents, book.holdUntil)
  {
    book.cashEvents := Sorted(book.cashEvents, CashKey());
    book.RecordHolds();
  }
}
