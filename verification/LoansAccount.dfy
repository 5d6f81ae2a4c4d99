/** The loans account of the ledger over a whole run: what it comes to, and when that is what the borrowers owe. */
module LoansAccount {
  import opened Rows
  import opened Calendar
  import L = Ledger
  import Lending
  import opened Deposits
  import opened Emission
  import opened Books
  import opened Months
  import opened Shapes
  import opened Plan
  import opened Movements
  import opened OpeningDeposits

  /** No other account of the chart is the loans account. */
  predicate Apart(c: Chart) {
    c.loans !in [c.deposits, c.interestIncome, c.fees, c.fx, c.interestExpense, c.suspense, c.cash]
  }

  /** What the ledger's loans account comes to. */
  function Total(rules: Rules, b: Book): int {
    Sum(b.journal.entries, L.OnAccount(rules.chart.loans))
  }

  predicate Posts(rules: Rules, b: Book, e: Event)
    requires Fits(rules, b, e)
  {
    if e.item.Transaction? then TxnPosts(rules, b, e) else PayFate(rules, b, e).posted
  }

  /** What an event moves on the loans account when it posts. */
  function LoanMove(rules: Rules, e: Event): int {
    if Plain(e) || e.item.Payment? then 0
    else if rules.vocabulary.TxnWay(e.item.typeCode) == Outgoing then -e.item.principal.value
    else e.item.magnitude
  }

  lemma {:induction false} LegsOnLoans(rules: Rules, e: Event)
    requires Apart(rules.chart) && e.item.Transaction?
    ensures Sum(TxnLegs(rules, e), L.LegOn(rules.chart.loans)) == LoanMove(rules, e)
  {
    var c, m, a := rules.chart, e.item.magnitude, e.accountId;
    var weight := L.LegOn(c.loans);
    var legs := TxnLegs(rules, e);
    if e.item.principal.Some? && rules.vocabulary.TxnWay(e.item.typeCode) == Outgoing {
      var pair := [L.Leg(c.deposits, m, Some(a)), L.Leg(c.loans, -e.item.principal.value, None)];
      L.SumPair(pair[0], pair[1], weight);
      assert pair + [] == pair;
      SumAppend(pair, L.Leg(c.interestIncome, -(m - e.item.principal.value), None), weight);
    } else {
      assert |legs| == 2 && legs == [legs[0], legs[1]];
      L.SumPair(legs[0], legs[1], weight);
    }
  }

  lemma {:induction false} PayLegsOffLoans(rules: Rules, e: Event)
    requires Apart(rules.chart) && e.item.Payment?
    ensures Sum(PayLegs(rules, e), L.LegOn(rules.chart.loans)) == 0
  {
    var legs := PayLegs(rules, e);
    assert |legs| == 2 && legs == [legs[0], legs[1]];
    L.SumPair(legs[0], legs[1], L.LegOn(rules.chart.loans));
  }

  /** One event moves the loans account by its own move when it posts, and not at all when it does not. */
  lemma {:induction false} EventMovesLoans(rules: Rules, b: Book, e: Event)
    requires Apart(rules.chart) && Fits(rules, b, e)
    ensures Total(rules, AfterEvent(rules, b, e))
            == Total(rules, b) + if Posts(rules, b, e) then LoanMove(rules, e) else 0
  {
    if e.item.Transaction? {
      LegsOnLoans(rules, e);
      L.PostingMoves(b.journal, TxnPosting(rules, |b.txns| + 1, e), rules.chart.loans);
    } else {
      PayLegsOffLoans(rules, e);
      L.PostingMoves(b.journal, PayPosting(rules, |b.pays| + 1, e), rules.chart.loans);
    }
  }

  /** Money paid out on a loan reaches the borrower, whatever the account holds; an installment leaves the account if
      the account can bear it, and is declined if not. */
  lemma {:induction false} LoanCashMovesTheBorrower(rules: Rules, b: Book, c: Lending.CashEvent)
    requires Fits(rules, b, LoanEvent(c))
    requires rules.vocabulary.TxnWay("transfer_in") == Incoming && rules.vocabulary.TxnWay("direct_debit") == Outgoing
    requires rules.vocabulary.PostsTxn("posted")
    ensures var held, after := b.balance[c.accountId - 1], AfterEvent(rules, b, LoanEvent(c));
            var short := c.amount <= 0 && held + c.amount < -(rules.limits[c.accountId - 1] as int);
            && |after.txns| == |b.txns| + 1 && after.pays == b.pays
            && after.txns[|b.txns|].bookedAt == c.when && after.txns[|b.txns|].amount == c.amount
            && after.txns[|b.txns|].currency == c.currency
            && after.txns[|b.txns|].status == (if short then "declined" else "posted")
            && after.balance[c.accountId - 1] == held + if short then 0 else c.amount
  {
  }

  // ---------------------------------------------------------------- repayments

  function Principal(): Event -> int {
    (e: Event) => if e.item.Transaction? then e.item.principal.GetOr(0) else 0
  }

  /** What carries a principal part leaves the account, in a status that posts, and repays nothing backwards. */
  predicate Repays(v: Vocabulary, e: Event) {
    Plain(e) || e.item.Payment?
    || (v.TxnWay(e.item.typeCode) == Outgoing && v.PostsTxn(e.item.status) && e.item.principal.value >= 0)
  }

  ghost predicate AllRepay(v: Vocabulary, events: seq<Event>) {
    forall i :: 0 <= i < |events| ==> Repays(v, events[i])
  }

  /** The principal parts of the repayments that posted over a run. */
  function Repaid(rules: Rules, b: Book, events: seq<Event>): int
    requires forall i :: 0 <= i < |events| ==> Fits(rules, b, events[i])
  {
    if events == [] then 0
    else
      var front, last := events[..|events| - 1], events[|events| - 1];
      assert Fits(rules, b, last);
      Repaid(rules, b, front) + if Posts(rules, Run(rules, b, front), last) then Principal()(last) else 0
  }

  /** The principal parts of the repayments that were declined for funds over a run. */
  function Declined(rules: Rules, b: Book, events: seq<Event>): int
    requires forall i :: 0 <= i < |events| ==> Fits(rules, b, events[i])
  {
    if events == [] then 0
    else
      var front, last := events[..|events| - 1], events[|events| - 1];
      assert Fits(rules, b, last);
      Declined(rules, b, front)
      + if last.item.Transaction? && TxnDeclined(rules, Run(rules, b, front), last) then Principal()(last) else 0
  }

  /** Over any run the loans account falls by exactly the principal parts that posted, and every part a repayment
      carries either posted or was declined. */
  lemma {:induction false} RunMovesLoans(rules: Rules, b: Book, events: seq<Event>)
    requires Apart(rules.chart) && AllRepay(rules.vocabulary, events)
    requires forall i :: 0 <= i < |events| ==> Fits(rules, b, events[i])
    ensures Total(rules, Run(rules, b, events)) == Total(rules, b) - Repaid(rules, b, events)
    ensures Repaid(rules, b, events) + Declined(rules, b, events) == Sum(events, Principal())
  {
    if events != [] {
      var front, last := events[..|events| - 1], events[|events| - 1];
      RunMovesLoans(rules, b, front);
      assert Repays(rules.vocabulary, last) && Fits(rules, b, last);
      EventMovesLoans(rules, Run(rules, b, front), last);
    }
  }

  /** No event of the run raises the loans account. */
  ghost predicate NeverRises(rules: Rules, b: Book, events: seq<Event>)
    requires forall i :: 0 <= i < |events| ==> Fits(rules, b, events[i])
  {
    forall n :: 0 <= n < |events| ==>
      Total(rules, Run(rules, b, events[..n + 1])) <= Total(rules, Run(rules, b, events[..n]))
  }

  lemma {:induction false} LoansNeverRise(rules: Rules, b: Book, events: seq<Event>)
    requires Apart(rules.chart) && AllRepay(rules.vocabulary, events)
    requires forall i :: 0 <= i < |events| ==> Fits(rules, b, events[i])
    ensures NeverRises(rules, b, events)
  {
    forall n | 0 <= n < |events|
      ensures Total(rules, Run(rules, b, events[..n + 1])) <= Total(rules, Run(rules, b, events[..n]))
    {
      assert events[..n + 1][..n] == events[..n];
      assert Repays(rules.vocabulary, events[n]) && Fits(rules, b, events[n]);
      EventMovesLoans(rules, Run(rules, b, events[..n]), events[n]);
    }
  }

  lemma {:induction false} NothingIsRepaidBackwards(rules: Rules, b: Book, events: seq<Event>)
    requires AllRepay(rules.vocabulary, events) && forall i :: 0 <= i < |events| ==> Fits(rules, b, events[i])
    ensures Repaid(rules, b, events) >= 0 && Declined(rules, b, events) >= 0
  {
    if events != [] {
      NothingIsRepaidBackwards(rules, b, events[..|events| - 1]);
      assert Repays(rules.vocabulary, events[|events| - 1]);
    }
  }

  // ---------------------------------------------------------------- what the borrowers owe

  /** The principal a plan's paid installments repay. */
  function PaidOf(plan: seq<Lending.Installment>, g: Lending.Grant, anchorDay: int): int {
    if plan == [] then 0
    else
      var n := |plan|;
      var paid := Lending.PaidDay(plan[n - 1], g.draw.installments(n - 1), g.draw.defaultMonth, anchorDay);
      PaidOf(plan[..n - 1], g, anchorDay) + if paid.Some? then plan[n - 1].principalPart else 0
  }

  function Granted(): Lending.Loan -> int {
    (loan: Lending.Loan) => loan.grant.Amount()
  }

  /** What a loan's borrower still owes at the anchor. */
  function Owing(anchorDay: int): Lending.Loan -> int {
    (loan: Lending.Loan) => loan.grant.Amount() - PaidOf(loan.plan, loan.grant, anchorDay)
  }

  function CashPrincipal(): Lending.CashEvent -> int {
    (c: Lending.CashEvent) => c.principal.GetOr(0)
  }

  lemma {:induction false} PaidEventsRepay(
    plan: seq<Lending.Installment>, g: Lending.Grant, before: nat, currency: string, anchorDay: int)
    ensures Sum(Lending.PaidEvents(plan, g, before, currency, anchorDay), CashPrincipal()) == PaidOf(plan, g, anchorDay)
  {
    if plan != [] {
      var n := |plan|;
      PaidEventsRepay(plan[..n - 1], g, before, currency, anchorDay);
      var paid := Lending.PaidEvent(plan[n - 1], g.draw.installments(n - 1), g, before + n, currency, anchorDay);
      var front := Lending.PaidEvents(plan[..n - 1], g, before, currency, anchorDay);
      if paid.Some? {
        SumAppend(front, paid.value, CashPrincipal());
      } else {
        assert front + [] == front;
      }
    }
  }

  /** The cash flows of the loans carry what was granted and is no longer owed. */
  lemma {:induction false} CashCarriesWhatIsRepaid(made: seq<Lending.Loan>, currency: nat -> string, anchorDay: int)
    ensures Sum(Lending.Cash(made, currency, anchorDay), CashPrincipal())
            == Sum(made, Granted()) - Sum(made, Owing(anchorDay))
  {
    if made != [] {
      var front, last := made[..|made| - 1], made[|made| - 1];
      CashCarriesWhatIsRepaid(front, currency, anchorDay);
      var own := currency(last.grant.account);
      var paid := Lending.PaidEvents(last.plan, last.grant, Lending.Installments(front), own, anchorDay);
      PaidEventsRepay(last.plan, last.grant, Lending.Installments(front), own, anchorDay);
      SumConcat(Lending.Cash(front, currency, anchorDay), paid, CashPrincipal());
      SumAppend(Lending.Cash(front, currency, anchorDay) + paid, Lending.Disbursement(last.grant, |made|, own),
                CashPrincipal());
    }
  }

  // ---------------------------------------------------------------- a run of the generator

  /** Every granted loan's payment covers its interest. */
  ghost predicate AllCovered(made: seq<Lending.Loan>) {
    forall i :: 0 <= i < |made| ==> Lending.Covered(made[i].grant)
  }

  /** So it is where every payment is the level one of some monthly rate. */
  lemma {:induction false} AnnuitiesAreAllCovered(made: seq<Lending.Loan>, monthly: nat -> real)
    requires forall i :: 0 <= i < |made| ==> Lending.ByAnnuity(made[i].grant, monthly(i))
    ensures AllCovered(made)
  {
    forall i | 0 <= i < |made| ensures Lending.Covered(made[i].grant) {
      Lending.AnnuitiesAreCovered(made[i].grant, monthly(i));
    }
  }

  /** A cash flow that repays takes money and repays nothing backwards. */
  predicate TakesMoney(c: Lending.CashEvent) {
    c.principal.Some? ==> c.amount <= 0 && c.principal.value >= 0
  }

  lemma {:induction false} PaidEventsTakeMoney(
    plan: seq<Lending.Installment>, g: Lending.Grant, before: nat, currency: string, anchorDay: int)
    requires Lending.NeverNegative(plan)
    ensures forall c :: c in Lending.PaidEvents(plan, g, before, currency, anchorDay) ==> TakesMoney(c)
  {
    if plan != [] {
      PaidEventsTakeMoney(plan[..|plan| - 1], g, before, currency, anchorDay);
    }
  }

  lemma {:induction false} CashTakesMoney(made: seq<Lending.Loan>, currency: nat -> string, anchorDay: int)
    requires Lending.PlansSound(made) && AllCovered(made)
    ensures forall c :: c in Lending.Cash(made, currency, anchorDay) ==> TakesMoney(c)
  {
    if made != [] {
      var front, last := made[..|made| - 1], made[|made| - 1];
      CashTakesMoney(front, currency, anchorDay);
      assert Lending.PlanSound(last) && Lending.Covered(last.grant);
      Lending.PlanRepaysExactly(last);
      PaidEventsTakeMoney(last.plan, last.grant, Lending.Installments(front), currency(last.grant.account), anchorDay);
    }
  }

  lemma {:induction false} GatheredArePlain(f: Facts, lives: seq<Life>, m: Month, active: seq<nat>, e: Event)
    requires |lives| == |f.openedOn| && e in Gathered(EventsIn(f, lives, m), active)
    ensures Plain(e)
  {
    var a := active[|active| - 1];
    if e in EventsOf(f, lives, m, a) {
      EventsAreOwn(f, lives, m, a, e);
    } else {
      GatheredArePlain(f, lives, m, active[..|active| - 1], e);
    }
  }

  lemma {:induction false} OwnArePlain(f: Facts, spans: seq<Span>, m: nat, e: Event)
    requires m < |spans| && Nonempty(spans) && e in OwnEvents(f, spans, m)
    ensures Plain(e)
  {
    var p, month := Entering(f, spans, m), MonthAt(f, spans, m);
    GatheredArePlain(f, Decided(f, p.lives, month, p.active), month, p.active, e);
  }

  /** What accounts draw themselves repays no loan. */
  lemma {:induction false} DrawnArePlain(f: Facts, spans: seq<Span>, n: nat, e: Event)
    requires n <= |spans| && Nonempty(spans) && e in DrawnOver(f, spans, n)
    ensures Plain(e)
  {
    JoinedHolds(Own(f, spans), n, e);
    var m :| 0 <= m < n && e in Own(f, spans)(m);
    OwnArePlain(f, spans, m, e);
  }

  lemma {:induction false} LoanEventsCarry(cash: seq<Lending.CashEvent>)
    ensures Sum(LoanEvents(cash), Principal()) == Sum(cash, CashPrincipal())
  {
    if cash != [] {
      var n := |cash| - 1;
      LoanEventsCarry(cash[..n]);
      assert LoanEvents(cash)[..n] == LoanEvents(cash[..n]);
    }
  }

  /** What a run is given: the cash flows of these loans, whose payments cover their interest, and a chart and
      vocabulary that tell them apart. */
  ghost predicate LentOut(s: Setting, made: seq<Lending.Loan>, currency: nat -> string) {
    && multiset(s.cash) == multiset(Lending.Cash(made, currency, s.facts.anchorDay))
    && Lending.PlansSound(made) && AllCovered(made) && Apart(s.rules.chart)
    && s.rules.vocabulary.TxnWay("direct_debit") == Outgoing && s.rules.vocabulary.PostsTxn("posted")
  }

  lemma {:induction false} LoanEventRepays(s: Setting, made: seq<Lending.Loan>, currency: nat -> string, e: Event)
    requires LentOut(s, made, currency) && e in LoanEvents(s.cash)
    ensures Repays(s.rules.vocabulary, e)
  {
    var i :| 0 <= i < |s.cash| && LoanEvents(s.cash)[i] == e;
    CashTakesMoney(made, currency, s.facts.anchorDay);
    assert s.cash[i] in multiset(s.cash);
    assert s.cash[i] in Lending.Cash(made, currency, s.facts.anchorDay);
  }

  lemma {:induction false} EmittedRepays(
    s: Setting, spans: seq<Span>, closedOn: seq<Option<int>>, book: Book, made: seq<Lending.Loan>,
    currency: nat -> string)
    requires Nonempty(spans) && Accounted(s, spans, closedOn, book) && LentOut(s, made, currency)
    ensures AllRepay(s.rules.vocabulary, Emitted(s.facts, s.cash, spans, |spans|))
  {
    var emitted, drawn := Emitted(s.facts, s.cash, spans, |spans|), DrawnOver(s.facts, spans, |spans|);
    forall i | 0 <= i < |emitted| ensures Repays(s.rules.vocabulary, emitted[i]) {
      assert emitted[i] in multiset(emitted);
      if emitted[i] in drawn {
        DrawnArePlain(s.facts, spans, |spans|, emitted[i]);
      } else {
        assert emitted[i] in multiset(LoanEvents(s.cash));
        LoanEventRepays(s, made, currency, emitted[i]);
      }
    }
  }

  /** The principal parts a run emits are what was granted and is no longer owed. */
  lemma {:induction false} EmittedCarries(
    s: Setting, spans: seq<Span>, closedOn: seq<Option<int>>, book: Book, made: seq<Lending.Loan>,
    currency: nat -> string)
    requires Nonempty(spans) && Accounted(s, spans, closedOn, book) && LentOut(s, made, currency)
    ensures Sum(Emitted(s.facts, s.cash, spans, |spans|), Principal())
         == Sum(made, Granted()) - Sum(made, Owing(s.facts.anchorDay))
  {
    var emitted, drawn := Emitted(s.facts, s.cash, spans, |spans|), DrawnOver(s.facts, spans, |spans|);
    SumIgnoresOrder(emitted, drawn + LoanEvents(s.cash), Principal());
    SumConcat(drawn, LoanEvents(s.cash), Principal());
    forall i | 0 <= i < |drawn| ensures Principal()(drawn[i]) == 0 {
      DrawnArePlain(s.facts, spans, |spans|, drawn[i]);
    }
    SumZero(drawn, Principal());
    LoanEventsCarry(s.cash);
    SumIgnoresOrder(s.cash, Lending.Cash(made, currency, s.facts.anchorDay), CashPrincipal());
    CashCarriesWhatIsRepaid(made, currency, s.facts.anchorDay);
  }

  /** Over any run of repayments from an empty book the loans account is minus what was repaid and never rises; it is
      `owed` if and only if what was declined is the rest of what the run carries. */
  lemma {:induction false} EmptyBookRepays(rules: Rules, events: seq<Event>, owed: int)
    requires Apart(rules.chart) && AllRepay(rules.vocabulary, events) && AllFit(rules, events)
    ensures var b := Empty(|rules.limits|);
            && Total(rules, Run(rules, b, events)) == -Repaid(rules, b, events) <= 0 && NeverRises(rules, b, events)
            && (Total(rules, Run(rules, b, events)) == owed
                <==> Sum(events, Principal()) + owed == Declined(rules, b, events))
  {
    var b := Empty(|rules.limits|);
    RunMovesLoans(rules, b, events);
    NothingIsRepaidBackwards(rules, b, events);
    LoansNeverRise(rules, b, events);
  }

  /** Over a whole run of the generator, where payments cover their interest: the loans account is minus the principal
      of the repayments that posted, so never above nothing, and it never rises. It is what the borrowers owe if and
      only if what was granted is what was declined, so in particular when nothing was granted. */
  lemma {:induction false} LoansAccountIsRepayments(
    s: Setting, spans: seq<Span>, closedOn: seq<Option<int>>, book: Book, made: seq<Lending.Loan>,
    currency: nat -> string)
    requires Nonempty(spans) && Accounted(s, spans, closedOn, book) && LentOut(s, made, currency)
    ensures var b, emitted := Empty(|s.rules.limits|), Emitted(s.facts, s.cash, spans, |spans|);
            && Total(s.rules, book) == -Repaid(s.rules, b, emitted) <= 0 && NeverRises(s.rules, b, emitted)
            && (Total(s.rules, book) == Sum(made, Owing(s.facts.anchorDay))
                <==> Sum(made, Granted()) == Declined(s.rules, b, emitted))
  {
    EmittedRepays(s, spans, closedOn, book, made, currency);
    EmittedCarries(s, spans, closedOn, book, made, currency);
    EmptyBookRepays(s.rules, Emitted(s.facts, s.cash, spans, |spans|), Sum(made, Owing(s.facts.anchorDay)));
  }

  lemma {:induction false} NothingIsPaidBackwards(plan: seq<Lending.Installment>, g: Lending.Grant, anchorDay: int)
    requires Lending.NeverNegative(plan)
    ensures 0 <= PaidOf(plan, g, anchorDay) <= Sum(plan, Lending.PrincipalPart())
  {
    if plan != [] {
      NothingIsPaidBackwards(plan[..|plan| - 1], g, anchorDay);
    }
  }

  lemma {:induction false} OwingIsWithinGranted(made: seq<Lending.Loan>, anchorDay: int)
    requires Lending.PlansSound(made) && AllCovered(made)
    ensures 0 <= Sum(made, Owing(anchorDay)) <= Sum(made, Granted())
  {
    if made != [] {
      var front, last := made[..|made| - 1], made[|made| - 1];
      OwingIsWithinGranted(front, anchorDay);
      Lending.PlanRepaysExactly(last);
      NothingIsPaidBackwards(last.plan, last.grant, anchorDay);
    }
  }

  /** What can be said before the run: with something still owed at the anchor the loans account is never what the
      borrowers owe, and with nothing granted it always is. */
  lemma {:induction false} LoansAccountBeforeTheRun(
    s: Setting, spans: seq<Span>, closedOn: seq<Option<int>>, book: Book, made: seq<Lending.Loan>,
    currency: nat -> string)
    requires Nonempty(spans) && Accounted(s, spans, closedOn, book) && LentOut(s, made, currency)
    ensures var owed := Sum(made, Owing(s.facts.anchorDay));
            && (owed > 0 ==> Total(s.rules, book) != owed)
            && (Sum(made, Granted()) == 0 ==> Total(s.rules, book) == owed)
  {
    var b, emitted := Empty(|s.rules.limits|), Emitted(s.facts, s.cash, spans, |spans|);
    LoansAccountIsRepayments(s, spans, closedOn, book, made, currency);
    OwingIsWithinGranted(made, s.facts.anchorDay);
    if Sum(made, Granted()) == 0 {
      EmittedRepays(s, spans, closedOn, book, made, currency);
      EmittedCarries(s, spans, closedOn, book, made, currency);
      RunMovesLoans(s.rules, b, emitted);
      NothingIsRepaidBackwards(s.rules, b, emitted);
    }
  }
}
