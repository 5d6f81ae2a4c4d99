/** Which applications become loans and when they are paid out, what each installment comes to and when it is paid, and
    what the level payment is. */
module Funnel {
  import opened Rows
  import opened Calendar
  import opened Sorting
  import opened Lending

  // ---------------------------------------------------------------- from an application to a loan

  /** An application reaches the bank between the customer's signup, or the start of the history, and the anchor. */
  lemma {:induction false} ApplicationsFallInTheHistory(a: ApplicationDraw, signup: int, startDay: int, anchorDay: int)
    requires signup <= anchorDay && startDay <= anchorDay
    ensures var day := DayOf(AppliedAt(a, signup, startDay, anchorDay));
            signup <= day <= anchorDay && startDay <= day
  {
    var from := Max(signup, startDay);
    var day := Min(from + a.offset % (Max(0, anchorDay - from) + 1), anchorDay);
    assert DayOf(day * DAY + a.second % DAY) == day;
  }

  /** On any of those days. */
  lemma {:induction false} AnyDayCanBeAppliedOn(
    a: ApplicationDraw, signup: int, startDay: int, anchorDay: int, day: int)
    requires signup <= day <= anchorDay && startDay <= day
    ensures day - Max(signup, startDay) >= 0
    ensures DayOf(AppliedAt(a.(offset := day - Max(signup, startDay)), signup, startDay, anchorDay)) == day
  {
    var from := Max(signup, startDay);
    assert (day - from) % (Max(0, anchorDay - from) + 1) == day - from;
    assert DayOf(day * DAY + a.second % DAY) == day;
  }

  /** What it takes for an application to become a loan: it was decided by the end of the anchor day and approved for
      something, the money is taken up, and the day it is due, the decision's and the drawn lag, is not past the anchor.
      It is paid out that day, or on the account's opening day when that is later. */
  predicate Leads(a: ApplicationDraw, applied: int, opening: int, anchorDay: int, day: int) {
    && a.outcome.Decided? && a.outcome.approved && a.outcome.amount > 0 && a.disburses
    && (var decided := applied + 3600 * a.outcome.lagHours;
        && decided < (anchorDay + 1) * DAY
        && var due := DayOf(decided) + a.disbursementLag;
          due <= anchorDay && due <= day && opening <= day && (day == due || day == opening))
  }

  /** An application is granted exactly when that holds, and then on exactly that day. */
  lemma {:induction false} GrantedExactly(
    customer: nat, signup: int, account: nat, opening: int, draws: (nat, nat) -> ApplicationDraw, startDay: int,
    anchorDay: int, k: nat, grant: Grant)
    requires opening <= anchorDay
    ensures var a := draws(customer, k);
            Granted(customer, signup, account, opening, draws, startDay, anchorDay)(k) == Some(grant)
            <==> && grant.account == account && grant.draw == a
                 && Leads(a, AppliedAt(a, signup, startDay, anchorDay), opening, anchorDay, grant.day)
  {
    assert (anchorDay + 1) * DAY == anchorDay * DAY + DAY;
  }

  lemma {:induction false} AmongOwn(granted: nat -> Option<Grant>, n: nat, grant: Grant)
    ensures grant in OwnGrants(granted, n) <==> exists k: nat :: k < n && granted(k) == Some(grant)
  {
    if n > 0 {
      AmongOwn(granted, n - 1, grant);
      assert OwnGrants(granted, n) == OwnGrants(granted, n - 1) + Granting(granted(n - 1));
    }
  }

  /** The customer's application of this number led to the loan. */
  ghost predicate CameFrom(
    grant: Grant, customer: nat, k: nat, signup: seq<int>, currentAccount: nat -> Option<nat>, counts: nat -> nat,
    draws: (nat, nat) -> ApplicationDraw, openedOn: seq<int>, startDay: int, anchorDay: int)
  {
    && 1 <= customer <= |signup| && k < counts(customer) && currentAccount(customer) == Some(grant.account)
    && 1 <= grant.account <= |openedOn| && grant.draw == draws(customer, k)
    && Leads(grant.draw, AppliedAt(grant.draw, signup[customer - 1], startDay, anchorDay),
             openedOn[grant.account - 1], anchorDay, grant.day)
  }

  lemma {:induction false} AmongTurn(
    customer: nat, signup: seq<int>, currentAccount: nat -> Option<nat>, counts: nat -> nat,
    draws: (nat, nat) -> ApplicationDraw, openedOn: seq<int>, startDay: int, anchorDay: int, grant: Grant)
    requires 1 <= customer <= |signup| && forall i :: 0 <= i < |openedOn| ==> openedOn[i] <= anchorDay
    requires forall c :: currentAccount(c).Some? ==> 1 <= currentAccount(c).value <= |openedOn|
    ensures grant in TurnGrants(customer, signup[customer - 1], currentAccount(customer), counts(customer), draws,
                                openedOn, startDay, anchorDay)
            <==> exists k: nat ::
                   CameFrom(grant, customer, k, signup, currentAccount, counts, draws, openedOn, startDay, anchorDay)
  {
    var account := currentAccount(customer);
    if account.Some? {
      var opening := openedOn[account.value - 1];
      var granted := Granted(customer, signup[customer - 1], account.value, opening, draws, startDay, anchorDay);
      AmongOwn(granted, counts(customer), grant);
      forall k: nat
        ensures k < counts(customer) && granted(k) == Some(grant)
                <==> CameFrom(grant, customer, k, signup, currentAccount, counts, draws, openedOn, startDay, anchorDay)
      {
        GrantedExactly(customer, signup[customer - 1], account.value, opening, draws, startDay, anchorDay, k, grant);
      }
    }
  }

  /** The loans granted are exactly those some application of a customer with a current account leads to. */
  lemma {:induction false} GrantsComeFromApplications(
    n: nat, signup: seq<int>, currentAccount: nat -> Option<nat>, counts: nat -> nat,
    draws: (nat, nat) -> ApplicationDraw, openedOn: seq<int>, startDay: int, anchorDay: int, grant: Grant)
    requires n <= |signup| && forall i :: 0 <= i < |openedOn| ==> openedOn[i] <= anchorDay
    requires forall c :: currentAccount(c).Some? ==> 1 <= currentAccount(c).value <= |openedOn|
    ensures grant in Grants(signup[..n], currentAccount, counts, draws, openedOn, startDay, anchorDay)
            <==> exists customer: nat, k: nat :: customer <= n &&
                   CameFrom(grant, customer, k, signup, currentAccount, counts, draws, openedOn, startDay, anchorDay)
  {
    if n > 0 {
      GrantsComeFromApplications(n - 1, signup, currentAccount, counts, draws, openedOn, startDay, anchorDay, grant);
      GrantsNext(signup, n, currentAccount, counts, draws, openedOn, startDay, anchorDay);
      AmongTurn(n, signup, currentAccount, counts, draws, openedOn, startDay, anchorDay, grant);
      OneMoreCustomer(n, signup, currentAccount, counts, draws, openedOn, startDay, anchorDay, grant);
    }
  }

  lemma {:induction false} OneMoreCustomer(
    n: nat, signup: seq<int>, currentAccount: nat -> Option<nat>, counts: nat -> nat,
    draws: (nat, nat) -> ApplicationDraw, openedOn: seq<int>, startDay: int, anchorDay: int, grant: Grant)
    requires n > 0
    ensures (exists customer: nat, k: nat :: customer <= n &&
               CameFrom(grant, customer, k, signup, currentAccount, counts, draws, openedOn, startDay, anchorDay))
            <==>
            (exists customer: nat, k: nat :: customer <= n - 1 &&
               CameFrom(grant, customer, k, signup, currentAccount, counts, draws, openedOn, startDay, anchorDay))
            || (exists k: nat ::
                  CameFrom(grant, n, k, signup, currentAccount, counts, draws, openedOn, startDay, anchorDay))
  {
  }

  // ---------------------------------------------------------------- what is paid, and when

  /** Before each installment the interest is on what is still owed, its principal part is what the level payment leaves
      of it, and the last one repays the rest. */
  lemma {:induction false} InstallmentsPayWhatIsOwed(loan: Loan, i: nat)
    requires PlanSound(loan) && i < |loan.plan|
    ensures var g, now := loan.grant, loan.plan[i];
            var owed := g.Amount() - Sum(loan.plan[..i], PrincipalPart());
            && now.number == i + 1 && now.interestPart == g.draw.interestOn(owed)
            && (i + 1 == |loan.plan| ==> now.principalPart == owed)
            && (i + 1 < |loan.plan| ==>
                  && (g.draw.payment <= now.interestPart + owed ==> now.dueAmount == g.draw.payment)
                  && (g.draw.payment > now.interestPart + owed ==> now.principalPart == owed))
            && now.dueAmount == now.principalPart + now.interestPart
  {
    var g := loan.grant;
    var amount, payment, interestOn, term := g.Amount(), g.draw.payment, g.draw.interestOn, g.Term();
    PartsRepay(amount, payment, interestOn, term, DueDays(g.day), i);
    assert loan.plan[..i] == PlanUpTo(amount, payment, interestOn, term, DueDays(g.day), i);
    assert loan.plan[i] == InstallmentAt(amount, payment, interestOn, term, DueDays(g.day), i);
  }

  /** Each installment falls due that many months on, on the day of the month the first one does or on the month's last,
      which is the day of the month the loan was paid out on if both months are long enough. */
  lemma {:induction false} InstallmentsFallDueMonthly(disbursedDay: int, i: nat) returns (first: Date, due: Date)
    requires disbursedDay >= 1
    ensures IsDate(first) && IsDate(due) && Ordinal(due) == DueDay(disbursedDay, i)
    ensures SameDayOfMonth(DateOf(disbursedDay), first, 1) && SameDayOfMonth(first, due, i)
  {
    first := AddMonths(DateOf(disbursedDay), 1);
    due := AddMonths(first, i);
  }

  /** A date that many months on, on the same day of its month or on the month's last. */
  predicate SameDayOfMonth(d: Date, later: Date, months: nat) {
    MonthIndex(later) == MonthIndex(d) + months && later.day == Min(d.day, LengthOf(MonthIndex(d) + months))
  }

  /** The borrower has stopped paying by this installment. */
  predicate Stopped(i: Installment, defaultMonth: Option<nat>) {
    defaultMonth.Some? && defaultMonth.value <= i.number
  }

  /** An installment is paid only if it has fallen due by the anchor: up to two days early or some days late while the
      borrower pays, thirty-five to ninety-four days late when arrears are cured, never after the borrower stopped and
      does not cure, and never past the anchor. */
  lemma {:induction false} InstallmentIsPaid(i: Installment, d: InstallmentDraw, stop: Option<nat>, anchorDay: int)
    ensures var paid := PaidDay(i, d, stop, anchorDay);
            && (paid.Some? ==> i.dueDay <= anchorDay && paid.value <= anchorDay)
            && (paid.Some? && !Stopped(i, stop) && !d.late ==> i.dueDay - 2 <= paid.value <= i.dueDay)
            && (paid.Some? && !Stopped(i, stop) && d.late ==> paid.value == i.dueDay + 1 + d.lateDays)
            && (paid.Some? && Stopped(i, stop) ==> d.cures && i.dueDay + 35 <= paid.value <= i.dueDay + 94)
    ensures PaidDay(i, d, stop, anchorDay).None? <==>
              || i.dueDay > anchorDay
              || (Stopped(i, stop) && !d.cures)
              || (Stopped(i, stop) && i.dueDay + 35 + d.cureDays % 60 > anchorDay)
              || (!Stopped(i, stop) && d.late && i.dueDay + 1 + d.lateDays > anchorDay)
  {
  }

  /** And on any of those days. */
  lemma {:induction false} AnySuchDayCanBePaidOn(i: Installment, d: InstallmentDraw, anchorDay: int, day: int)
    requires i.dueDay <= anchorDay && day <= anchorDay
    ensures 0 <= i.dueDay - day <= 2 ==>
              PaidDay(i, d.(late := false, early := i.dueDay - day), None, anchorDay) == Some(day)
    ensures day > i.dueDay ==>
              PaidDay(i, d.(late := true, lateDays := day - i.dueDay - 1), None, anchorDay) == Some(day)
    ensures 35 <= day - i.dueDay <= 94 ==>
              PaidDay(i, d.(cures := true, cureDays := day - i.dueDay - 35), Some(0), anchorDay) == Some(day)
  {
  }

  /** The money paid out: the whole amount, to the borrower's account, on the loan's day; it repays nothing. */
  predicate PaysOut(e: CashEvent, g: Grant, currency: nat -> string) {
    && e.accountId == g.account && e.amount == g.Amount() && DayOf(e.when) == g.day && e.principal == None
    && e.currency == currency(g.account)
  }

  /** An installment paid back: what is due, from the borrower's account, on the day it is paid, with the principal it
      repays. */
  predicate PaysBack(e: CashEvent, loan: Loan, i: nat, currency: nat -> string, anchorDay: int)
    requires i < |loan.plan|
  {
    var g := loan.grant;
    && e.accountId == g.account && e.amount == -loan.plan[i].dueAmount
    && e.principal == Some(loan.plan[i].principalPart) && e.currency == currency(g.account)
    && PaidDay(loan.plan[i], g.draw.installments(i), g.draw.defaultMonth, anchorDay) == Some(DayOf(e.when))
  }

  lemma {:induction false} PaidEventsPayBack(
    loan: Loan, n: nat, before: nat, currency: nat -> string, anchorDay: int, e: CashEvent)
    requires n <= |loan.plan|
    requires e in PaidEvents(loan.plan[..n], loan.grant, before, currency(loan.grant.account), anchorDay)
    ensures exists i :: 0 <= i < n && PaysBack(e, loan, i, currency, anchorDay)
  {
    var g, plan := loan.grant, loan.plan[..n];
    assert plan[..n - 1] == loan.plan[..n - 1];
    if e in PaidEvents(plan[..n - 1], g, before, currency(g.account), anchorDay) {
      PaidEventsPayBack(loan, n - 1, before, currency, anchorDay, e);
    } else {
      var paid := PaidDay(plan[n - 1], g.draw.installments(n - 1), g.draw.defaultMonth, anchorDay).value;
      assert DayOf(paid * DAY + g.draw.installments(n - 1).second % DAY) == paid;
      assert PaysBack(e, loan, n - 1, currency, anchorDay);
    }
  }

  /** Every paid installment has its cash flow. */
  lemma {:induction false} PaidInstallmentsPayBack(
    loan: Loan, n: nat, before: nat, currency: nat -> string, anchorDay: int, i: nat)
    requires i < n <= |loan.plan|
    requires PaidDay(loan.plan[i], loan.grant.draw.installments(i), loan.grant.draw.defaultMonth, anchorDay).Some?
    ensures exists e :: e in PaidEvents(loan.plan[..n], loan.grant, before, currency(loan.grant.account), anchorDay)
                        && PaysBack(e, loan, i, currency, anchorDay)
  {
    var g, plan := loan.grant, loan.plan[..n];
    assert plan[..n - 1] == loan.plan[..n - 1];
    if i < n - 1 {
      PaidInstallmentsPayBack(loan, n - 1, before, currency, anchorDay, i);
    } else {
      var paid := PaidDay(plan[i], g.draw.installments(i), g.draw.defaultMonth, anchorDay).value;
      assert DayOf(paid * DAY + g.draw.installments(i).second % DAY) == paid;
      var e := PaidEvent(plan[i], g.draw.installments(i), g, before + n, currency(g.account), anchorDay).value;
      assert PaysBack(e, loan, i, currency, anchorDay);
    }
  }

  /** The cash flows of the loans are the money paid out for each and the installments paid back, and nothing else. */
  lemma {:induction false} CashIsPaidOutOrBack(
    made: seq<Loan>, currency: nat -> string, anchorDay: int, e: CashEvent) returns (n: nat)
    requires e in Cash(made, currency, anchorDay)
    ensures n < |made|
    ensures PaysOut(e, made[n].grant, currency)
            || exists i :: 0 <= i < |made[n].plan| && PaysBack(e, made[n], i, currency, anchorDay)
  {
    var front, last := made[..|made| - 1], made[|made| - 1];
    if e in Cash(front, currency, anchorDay) {
      n := CashIsPaidOutOrBack(front, currency, anchorDay, e);
    } else {
      n := |made| - 1;
      var g := last.grant;
      assert DayOf(g.day * DAY + g.draw.disbursementSecond % DAY) == g.day;
      if e in PaidEvents(last.plan, g, Installments(front), currency(g.account), anchorDay) {
        assert last.plan[..|last.plan|] == last.plan;
        PaidEventsPayBack(last, |last.plan|, Installments(front), currency, anchorDay, e);
      }
    }
  }

  /** No money of a loan moves before the application for it, and none is paid back for weeks after that. */
  lemma {:induction false} NothingPrecedesItsApplication(
    made: seq<Loan>, signup: seq<int>, currentAccount: nat -> Option<nat>, currency: nat -> string,
    counts: nat -> nat, draws: (nat, nat) -> ApplicationDraw, openedOn: seq<int>, startDay: int, anchorDay: int,
    e: CashEvent) returns (n: nat, customer: nat, k: nat)
    requires forall i :: 0 <= i < |openedOn| ==> openedOn[i] <= anchorDay
    requires forall c :: currentAccount(c).Some? ==> 1 <= currentAccount(c).value <= |openedOn|
    requires PlansSound(made)
    requires GrantsOf(made) == Grants(signup, currentAccount, counts, draws, openedOn, startDay, anchorDay)
    requires e in Cash(made, currency, anchorDay)
    ensures n < |made| && e.accountId == made[n].grant.account
    ensures CameFrom(made[n].grant, customer, k, signup, currentAccount, counts, draws, openedOn, startDay, anchorDay)
    ensures var applied := DayOf(AppliedAt(made[n].grant.draw, signup[customer - 1], startDay, anchorDay));
            && applied <= made[n].grant.day <= DayOf(e.when)
            && (e.principal.Some? ==> applied + 26 <= DayOf(e.when))
  {
    n := CashIsPaidOutOrBack(made, currency, anchorDay, e);
    var g := made[n].grant;
    GrantOfEach(made, n);
    assert signup[..|signup|] == signup;
    assert g in GrantsOf(made);
    GrantsComeFromApplications(|signup|, signup, currentAccount, counts, draws, openedOn, startDay, anchorDay, g);
    customer, k :| CameFrom(g, customer, k, signup, currentAccount, counts, draws, openedOn, startDay, anchorDay);
    if !PaysOut(e, g, currency) {
      var i :| 0 <= i < |made[n].plan| && PaysBack(e, made[n], i, currency, anchorDay);
      PlansFallDue(made[n]);
      InstallmentIsPaid(made[n].plan[i], g.draw.installments(i), g.draw.defaultMonth, anchorDay);
    }
  }

  /** The cash flows go by time; at one instant, by account; for one account at one instant, by what they are for. */
  lemma {:induction false} CashGoesByTime(cash: seq<CashEvent>, i: nat, k: nat)
    requires i < k < |SortedBy(cash, CashKey())|
    ensures var a, b := SortedBy(cash, CashKey())[i], SortedBy(cash, CashKey())[k];
            && a.when <= b.when && (a.when == b.when ==> a.accountId <= b.accountId)
            && (a.when == b.when && a.accountId == b.accountId ==> a.sourceId <= b.sourceId)
  {
    SortedByOrders(cash, CashKey());
    assert AtMost(CashKey()(SortedBy(cash, CashKey())[i]), CashKey()(SortedBy(cash, CashKey())[k]));
  }

  // ---------------------------------------------------------------- the level payment

  /** What is owed a month on, if nothing is rounded: interest is added and the payment taken off. */
  function NextOwed(owed: real, payment: real, monthly: real): real {
    owed + owed * monthly - payment
  }

  function ExactlyOwed(principal: real, payment: real, monthly: real, n: nat): real {
    if n == 0 then principal else NextOwed(ExactlyOwed(principal, payment, monthly, n - 1), payment, monthly)
  }

  /** What is owed against what was lent and what was paid, both with the interest on them. */
  predicate Compounds(owed: real, principal: real, payment: real, monthly: real, grown: real) {
    monthly * owed == monthly * principal * grown - payment * (grown - 1.0)
  }

  lemma {:induction false} OneMonthOn(owed: real, principal: real, payment: real, monthly: real, grown: real)
    requires Compounds(owed, principal, payment, monthly, grown)
    ensures Compounds(NextOwed(owed, payment, monthly), principal, payment, monthly, grown * (1.0 + monthly))
  {
    var more := 1.0 + monthly;
    assert monthly * (owed + owed * monthly - payment) == more * (monthly * owed) - monthly * payment;
    assert more * (monthly * owed) == more * (monthly * principal * grown) - more * (payment * (grown - 1.0));
    assert more * (monthly * principal * grown) == monthly * principal * (grown * more);
    assert more * (payment * (grown - 1.0)) == payment * (grown * more) - payment * more;
  }

  lemma {:induction false} OwedCompounds(principal: real, payment: real, monthly: real, n: nat)
    ensures Compounds(ExactlyOwed(principal, payment, monthly, n), principal, payment, monthly,
                      Power(1.0 + monthly, n))
  {
    if n == 0 {
      NothingPaidYet(principal, payment, monthly);
    } else {
      OwedCompounds(principal, payment, monthly, n - 1);
      OneMonthOn(ExactlyOwed(principal, payment, monthly, n - 1), principal, payment, monthly,
                 Power(1.0 + monthly, n - 1));
    }
  }

  lemma {:induction false} NothingPaidYet(principal: real, payment: real, monthly: real)
    ensures Compounds(principal, principal, payment, monthly, 1.0)
  {
  }

  /** The level payment is the one that repays the loan exactly over its term: with it, and with no other, nothing is
      owed after the last payment. */
  lemma {:induction false} LevelPaymentRepaysExactly(principal: real, payment: real, monthly: real, term: nat)
    requires monthly > 0.0 && term > 0
    ensures ExactlyOwed(principal, payment, monthly, term) == 0.0
            <==> payment == Level(principal * monthly, Power(1.0 + monthly, term))
  {
    OwedCompounds(principal, payment, monthly, term);
    NothingOwed(ExactlyOwed(principal, payment, monthly, term), principal, payment, monthly,
                Power(1.0 + monthly, term));
  }

  lemma {:induction false} NothingOwed(owed: real, principal: real, payment: real, monthly: real, grown: real)
    requires monthly > 0.0 && grown > 1.0 && Compounds(owed, principal, payment, monthly, grown)
    ensures owed == 0.0 <==> payment == Level(principal * monthly, grown)
  {
    QuotientIsTheOnlyOne((principal * monthly) * grown, grown - 1.0, payment);
    assert (principal * monthly) * grown - payment * (grown - 1.0) == monthly * owed;
    assert monthly * owed == 0.0 <==> owed == 0.0;
  }

  lemma {:induction false} QuotientIsTheOnlyOne(x: real, d: real, y: real)
    requires d > 0.0
    ensures x - y * d == 0.0 <==> y == x / d
  {
    var q := x / d;
    assert q * d == x;
    assert x - y * d == (q - y) * d;
  }

  /** An amount in whole minor units is the nearest, and of two as near the greater. */
  predicate Nearest(whole: int, amount: real) {
    -0.5 < whole as real - amount <= 0.5
  }

  lemma {:induction false} RoundingIsToTheNearest(amount: real)
    ensures Nearest(Rounded(amount), amount)
  {
  }

  /** The payment is the level one, rounded. */
  lemma {:induction false} PaymentIsTheLevelOne(principal: nat, monthly: real, term: nat)
    requires monthly > 0.0 && term > 0
    ensures Nearest(Annuity(principal, monthly, term),
                    Level(principal as real * monthly, Power(1.0 + monthly, term)))
  {
    RoundingIsToTheNearest(Level(OneMonth(principal, monthly), Power(1.0 + monthly, term)));
  }

  /** Without interest it is an equal part, rounded. */
  lemma {:induction false} PaymentIsAnEqualPart(principal: nat, term: nat)
    requires term > 0
    ensures Nearest(Annuity(principal, 0.0, term), principal as real / term as real)
  {
    RoundingIsToTheNearest(principal as real / term as real);
  }
}
