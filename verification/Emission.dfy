/** Emitting one movement: decide whether it posts, move the balance, write the row, post the ledger batch. */
module Emission {
  import opened Rows
  import opened Calendar
  import L = Ledger
  import opened Deposits

  datatype Direction = Incoming | Outgoing

  /** The reference tables the pass reads: which way each type moves money, and which statuses are posted. */
  datatype Vocabulary = Vocabulary(
    txnDirection: map<string, Direction>, txnPosted: map<string, bool>,
    payDirection: map<string, Direction>, payPosted: map<string, bool>)
  {
    predicate PostsTxn(status: string) {
      status in txnPosted && txnPosted[status]
    }

    predicate PostsPay(status: string) {
      status in payPosted && payPosted[status]
    }

    function TxnWay(typeCode: string): Direction {
      if typeCode in txnDirection then txnDirection[typeCode] else Incoming
    }

    function PayWay(typeCode: string): Direction {
      if typeCode in payDirection then payDirection[typeCode] else Incoming
    }

    /** The facts about the seeded statuses that the pass relies on. */
    predicate Sound() {
      !PostsTxn("declined") && !PostsPay("pending") && !PostsPay("rejected") && PostsPay("booked")
    }
  }

  /** The ledger accounts the pass posts to. */
  datatype Chart = Chart(
    deposits: string, loans: string, interestIncome: string, fees: string, fx: string,
    interestExpense: string, suspense: string, cash: string)
  {
    /** Which account faces customer deposits for this kind of movement. */
    function Contra(typeCode: string): string {
      if typeCode in ["account_fee", "maintenance_fee", "card_issue_fee"] then fees
      else if typeCode == "fx_markup" then fx
      else if typeCode in ["interest_posting", "interest_accrual"] then interestExpense
      else if typeCode in ["chargeback_adjustment", "write_off", "internal_reclass"] then suspense
      else cash
    }
  }

  datatype Item =
    | Transaction(typeCode: string, cardId: Option<nat>, magnitude: nat, status: string, authOutcome: Option<string>,
                  valueDate: int, currency: string, principal: Option<int>)
    | Payment(payType: string, scheme: string, payStatus: string, amount: nat, payCurrency: string, settleLag: nat)

  /** A movement waiting to be emitted: its instant, its account, its place among the account's events of the
      month, and the day it was drawn on. */
  datatype Event = Event(at: int, accountId: nat, place: nat, day: int, item: Item)

  datatype TxnRow = TxnRow(
    id: nat, accountId: nat, cardId: Option<nat>, typeCode: string, status: string, authOutcome: Option<string>,
    bookedAt: int, valueDate: int, amount: int, currency: string)

  datatype PayRow = PayRow(
    id: nat, accountId: nat, typeCode: string, scheme: string, status: string,
    initiatedAt: int, bookedAt: Option<int>, settledAt: Option<int>, amount: nat, currency: string)

  /** What stays fixed over a run. */
  datatype Rules = Rules(vocabulary: Vocabulary, chart: Chart, limits: seq<nat>, anchorEnd: int)

  /** Everything a run has written: balances, rows and ledger. */
  datatype Book = Book(
    balance: seq<int>, declined: nat, txns: seq<TxnRow>, pays: seq<PayRow>, journal: L.Journal)

  predicate Fits(rules: Rules, b: Book, e: Event) {
    1 <= e.accountId <= |b.balance| && |b.balance| == |rules.limits|
  }

  /** A debit is declined when it would pass the overdraft limit. */
  predicate Breaches(rules: Rules, b: Book, accountId: nat, signed: int)
    requires 1 <= accountId <= |b.balance| && |b.balance| == |rules.limits|
  {
    b.balance[accountId - 1] + signed < -(rules.limits[accountId - 1] as int)
  }

  function TxnSigned(rules: Rules, e: Event): int
    requires e.item.Transaction?
  {
    if rules.vocabulary.TxnWay(e.item.typeCode) == Outgoing then -(e.item.magnitude as int) else e.item.magnitude
  }

  predicate TxnDeclined(rules: Rules, b: Book, e: Event)
    requires e.item.Transaction? && Fits(rules, b, e)
  {
    && rules.vocabulary.PostsTxn(e.item.status) && rules.vocabulary.TxnWay(e.item.typeCode) == Outgoing
    && Breaches(rules, b, e.accountId, TxnSigned(rules, e))
  }

  predicate TxnPosts(rules: Rules, b: Book, e: Event)
    requires e.item.Transaction? && Fits(rules, b, e)
  {
    rules.vocabulary.PostsTxn(e.item.status) && !TxnDeclined(rules, b, e)
  }

  /** The legs of a posted transaction: a loan repayment splits principal from interest. */
  function TxnLegs(rules: Rules, e: Event): seq<L.Leg>
    requires e.item.Transaction?
  {
    var c, m, a := rules.chart, e.item.magnitude, e.accountId;
    var outgoing := rules.vocabulary.TxnWay(e.item.typeCode) == Outgoing;
    if e.item.principal.Some? then
      if outgoing then
        var interest := m - e.item.principal.value;
        [L.Leg(c.deposits, m, Some(a)), L.Leg(c.loans, -e.item.principal.value, None)]
        + if interest != 0 then [L.Leg(c.interestIncome, -interest, None)] else []
      else [L.Leg(c.loans, m, None), L.Leg(c.deposits, -(m as int), Some(a))]
    else if outgoing then L.CustomerDebit(c.deposits, c.Contra(e.item.typeCode), m, a)
    else L.CustomerCredit(c.deposits, c.Contra(e.item.typeCode), m, a)
  }

  function TxnPosting(rules: Rules, id: nat, e: Event): L.Posting
    requires e.item.Transaction?
  {
    L.Posting(DayOf(e.at), e.item.typeCode, "transaction", id, e.item.currency, TxnLegs(rules, e))
  }

  function AfterTransaction(rules: Rules, b: Book, e: Event): Book
    requires e.item.Transaction? && Fits(rules, b, e)
  {
    var id, posts, declined := |b.txns| + 1, TxnPosts(rules, b, e), TxnDeclined(rules, b, e);
    var auth :=
      if !declined then e.item.authOutcome else if e.item.cardId.Some? then Some("declined_funds") else None;
    Book(
      if posts then b.balance[e.accountId - 1 := b.balance[e.accountId - 1] + TxnSigned(rules, e)] else b.balance,
      b.declined + if declined then 1 else 0,
      b.txns + [TxnRow(id, e.accountId, e.item.cardId, e.item.typeCode,
                       if declined then "declined" else e.item.status, auth,
                       e.at, e.item.valueDate, TxnSigned(rules, e), e.item.currency)],
      b.pays,
      if posts then L.AfterPosting(b.journal, TxnPosting(rules, id, e)) else b.journal)
  }

  /** How far a payment got by the anchor. */
  datatype Fate = Fate(posted: bool, status: string, bookedAt: Option<int>, settledAt: Option<int>)

  function PaySigned(rules: Rules, e: Event): int
    requires e.item.Payment?
  {
    if rules.vocabulary.PayWay(e.item.payType) == Outgoing then -(e.item.amount as int) else e.item.amount
  }

  /** A payment whose booking falls past the anchor is still pending; one whose settlement does is still booked;
      a debit past the limit is rejected. */
  function PayFate(rules: Rules, b: Book, e: Event): Fate
    requires e.item.Payment? && Fits(rules, b, e)
  {
    var status, booked := e.item.payStatus, e.at + 17 * 60;
    if !rules.vocabulary.PostsPay(status) then Fate(false, status, None, None)
    else if booked > rules.anchorEnd then Fate(false, "pending", None, None)
    else if rules.vocabulary.PayWay(e.item.payType) == Outgoing && Breaches(rules, b, e.accountId, PaySigned(rules, e))
    then Fate(false, "rejected", None, None)
    else
      var settled := booked + e.item.settleLag * DAY + 5 * 60;
      if status != "settled" && status != "returned" then Fate(true, status, Some(booked), None)
      else if settled > rules.anchorEnd then Fate(true, "booked", Some(booked), None)
      else Fate(true, status, Some(booked), Some(settled))
  }

  function PayLegs(rules: Rules, e: Event): seq<L.Leg>
    requires e.item.Payment?
  {
    if rules.vocabulary.PayWay(e.item.payType) == Outgoing
    then L.CustomerDebit(rules.chart.deposits, rules.chart.cash, e.item.amount, e.accountId)
    else L.CustomerCredit(rules.chart.deposits, rules.chart.cash, e.item.amount, e.accountId)
  }

  function PayPosting(rules: Rules, id: nat, e: Event): L.Posting
    requires e.item.Payment?
  {
    L.Posting(DayOf(e.at + 17 * 60), e.item.payType, "payment", id, e.item.payCurrency, PayLegs(rules, e))
  }

  function AfterPayment(rules: Rules, b: Book, e: Event): Book
    requires e.item.Payment? && Fits(rules, b, e)
  {
    var id, fate := |b.pays| + 1, PayFate(rules, b, e);
    Book(
      if fate.posted then b.balance[e.accountId - 1 := b.balance[e.accountId - 1] + PaySigned(rules, e)] else b.balance,
      b.declined,
      b.txns,
      b.pays + [PayRow(id, e.accountId, e.item.payType, e.item.scheme, fate.status, e.at, fate.bookedAt,
                       fate.settledAt, e.item.amount, e.item.payCurrency)],
      if fate.posted then L.AfterPosting(b.journal, PayPosting(rules, id, e)) else b.journal)
  }

  function AfterEvent(rules: Rules, b: Book, e: Event): (after: Book)
    requires Fits(rules, b, e)
    ensures |after.balance| == |b.balance|
  {
    if e.item.Transaction? then AfterTransaction(rules, b, e) else AfterPayment(rules, b, e)
  }

  class RowSink<T> {
    var rows: seq<T>

    constructor ()
      ensures rows == []
    {
      rows := [];
    }
  }

  class MovementStats {
    var declinedForFunds: nat
    var transactions: nat
    var payments: nat

    constructor ()
      ensures declinedForFunds == transactions == payments == 0
    {
      declinedForFunds, transactions, payments := 0, 0, 0;
    }
  }

  /** The objects a run writes through. */
  datatype Outputs = Outputs(
    accounts: AccountBook, ledger: L.LedgerWriter, txns: RowSink<TxnRow>, pays: RowSink<PayRow>, stats: MovementStats)
  {
    function View(): Book
      reads accounts, ledger, txns, pays, stats
    {
      Book(accounts.balance, stats.declinedForFunds, txns.rows, pays.rows, ledger.View())
    }
  }

  lemma {:induction false} TxnLegsBalance(rules: Rules, e: Event, other: nat)
    requires e.item.Transaction?
    ensures Sum(TxnLegs(rules, e), L.LegAmount()) == 0
    ensures Sum(TxnLegs(rules, e), L.LegCarrying(other)) == if other == e.accountId then -TxnSigned(rules, e) else 0
    ensures TxnLegs(rules, e) != []
  {
    var c, m, a := rules.chart, e.item.magnitude, e.accountId;
    L.CustomerLegsBalance(c.deposits, c.Contra(e.item.typeCode), m, a, other);
    if e.item.principal.Some? {
      var p := e.item.principal.value;
      L.SumPair(L.Leg(c.loans, m, None), L.Leg(c.deposits, -(m as int), Some(a)), L.LegAmount());
      L.SumPair(L.Leg(c.loans, m, None), L.Leg(c.deposits, -(m as int), Some(a)), L.LegCarrying(other));
      var pair := [L.Leg(c.deposits, m, Some(a)), L.Leg(c.loans, -p, None)];
      L.SumPair(pair[0], pair[1], L.LegAmount());
      L.SumPair(pair[0], pair[1], L.LegCarrying(other));
      SumAppend(pair, L.Leg(c.interestIncome, -(m - p), None), L.LegAmount());
      SumAppend(pair, L.Leg(c.interestIncome, -(m - p), None), L.LegCarrying(other));
      assert pair + [] == pair;
    }
  }

  /** A loan repayment reduces the loan by its principal and earns the rest as interest. */
  lemma {:induction false} RepaymentSplitsPrincipal(rules: Rules, e: Event)
    requires e.item.Transaction? && e.item.principal.Some? && rules.vocabulary.TxnWay(e.item.typeCode) == Outgoing
    requires rules.chart.deposits != rules.chart.loans && rules.chart.deposits != rules.chart.interestIncome
    requires rules.chart.loans != rules.chart.interestIncome
    ensures Sum(TxnLegs(rules, e), L.LegOn(rules.chart.deposits)) == e.item.magnitude
    ensures Sum(TxnLegs(rules, e), L.LegOn(rules.chart.loans)) == -e.item.principal.value
    ensures Sum(TxnLegs(rules, e), L.LegOn(rules.chart.interestIncome)) == e.item.principal.value - e.item.magnitude
  {
    var c, m, p := rules.chart, e.item.magnitude, e.item.principal.value;
    var pair := [L.Leg(c.deposits, m, Some(e.accountId)), L.Leg(c.loans, -p, None)];
    var interest := L.Leg(c.interestIncome, -(m - p), None);
    assert pair + [] == pair;
    forall gl | gl == c.deposits || gl == c.loans || gl == c.interestIncome
      ensures Sum(TxnLegs(rules, e), L.LegOn(gl)) == L.LegOn(gl)(pair[0]) + L.LegOn(gl)(pair[1]) + L.LegOn(gl)(interest)
    {
      L.SumPair(pair[0], pair[1], L.LegOn(gl));
      SumAppend(pair, interest, L.LegOn(gl));
    }
  }

  /** A movement without a principal part, a disbursement among them, never touches the loans account. */
  lemma {:induction false} WithoutPrincipalBypassesLoans(rules: Rules, e: Event)
    requires e.item.Transaction? && e.item.principal.None?
    requires rules.chart.loans != rules.chart.deposits && rules.chart.loans != rules.chart.Contra(e.item.typeCode)
    ensures Sum(TxnLegs(rules, e), L.LegOn(rules.chart.loans)) == 0
    ensures Sum(TxnLegs(rules, e), L.LegOn(rules.chart.deposits)) ==
              -TxnSigned(rules, e)
                + if rules.chart.Contra(e.item.typeCode) == rules.chart.deposits then TxnSigned(rules, e) else 0
  {
    var legs := TxnLegs(rules, e);
    assert |legs| == 2 && legs == [legs[0], legs[1]];
    L.SumPair(legs[0], legs[1], L.LegOn(rules.chart.loans));
    L.SumPair(legs[0], legs[1], L.LegOn(rules.chart.deposits));
  }

  lemma {:induction false} PayLegsBalance(rules: Rules, e: Event, other: nat)
    requires e.item.Payment?
    ensures Sum(PayLegs(rules, e), L.LegAmount()) == 0
    ensures Sum(PayLegs(rules, e), L.LegCarrying(other)) == if other == e.accountId then -PaySigned(rules, e) else 0
  {
    L.CustomerLegsBalance(rules.chart.deposits, rules.chart.cash, e.item.amount, e.accountId, other);
  }

  /** The ledger batch of a posted transaction. */
  method PostTransaction(rules: Rules, ledger: L.LedgerWriter, transactionId: nat, e: Event)
    requires e.item.Transaction? && e.item.typeCode in rules.vocabulary.txnDirection
    modifies ledger
    ensures ledger.View() == L.AfterPosting(old(ledger.View()), TxnPosting(rules, transactionId, e))
  {
    var item, direction := e.item, rules.vocabulary.txnDirection[e.item.typeCode];
    TxnLegsBalance(rules, e, e.accountId);
    var r;
    if item.principal.Some? {
      r := ledger.Post(TxnPosting(rules, transactionId, e));
    } else if direction == Outgoing {
      r := ledger.PostCustomerDebit(DayOf(e.at), item.typeCode, "transaction", transactionId, item.currency,
                                    item.magnitude, e.accountId, rules.chart.deposits,
                                    rules.chart.Contra(item.typeCode));
    } else {
      r := ledger.PostCustomerCredit(DayOf(e.at), item.typeCode, "transaction", transactionId, item.currency,
                                     item.magnitude, e.accountId, rules.chart.deposits,
                                     rules.chart.Contra(item.typeCode));
    }
    assert r.Ok?;
  }

  /** Emits one transaction. */
  method EmitTransaction(rules: Rules, out: Outputs, transactionId: nat, e: Event)
    requires e.item.Transaction? && out.accounts.Valid() && Fits(rules, out.View(), e)
    requires e.item.typeCode in rules.vocabulary.txnDirection && transactionId == |out.txns.rows| + 1
    modifies out.accounts`balance, out.accounts`updatedAt, out.ledger, out.txns, out.stats
    ensures out.accounts.Valid() && out.View() == AfterTransaction(rules, old(out.View()), e)
    ensures out.accounts.updatedAt == old(out.accounts.updatedAt)[e.accountId - 1 :=
              Later(old(out.accounts.updatedAt[e.accountId - 1]), e.at)]
    ensures out.stats.transactions == old(out.stats.transactions) && out.stats.payments == old(out.stats.payments)
  {
    var index, item := e.accountId - 1, e.item;
    var direction := rules.vocabulary.txnDirection[item.typeCode];
    var posted := rules.vocabulary.PostsTxn(item.status);
    var status, auth := item.status, item.authOutcome;
    var signed := if direction == Outgoing then -(item.magnitude as int) else item.magnitude;
    if posted && direction == Outgoing && out.accounts.balance[index] + signed < -(rules.limits[index] as int) {
      posted := false;
      status := "declined";
      auth := if item.cardId.Some? then Some("declined_funds") else None;
      out.stats.declinedForFunds := out.stats.declinedForFunds + 1;
    }
    if posted {
      out.accounts.balance := out.accounts.balance[index := out.accounts.balance[index] + signed];
    }
    out.accounts.updatedAt := out.accounts.updatedAt[index := Later(out.accounts.updatedAt[index], e.at)];
    out.txns.rows := out.txns.rows + [TxnRow(transactionId, e.accountId, item.cardId, item.typeCode, status, auth,
                                             e.at, item.valueDate, signed, item.currency)];
    if posted {
      PostTransaction(rules, out.ledger, transactionId, e);
    }
  }

  function Later(a: int, b: int): int {
    if a < b then b else a
  }

  /** The ledger batch of a posted payment, on the day it booked. */
  method PostPayment(rules: Rules, ledger: L.LedgerWriter, paymentId: nat, e: Event, when: int)
    requires e.item.Payment? && e.item.payType in rules.vocabulary.payDirection && when == e.at + 17 * 60
    modifies ledger
    ensures ledger.View() == L.AfterPosting(old(ledger.View()), PayPosting(rules, paymentId, e))
  {
    var item, direction := e.item, rules.vocabulary.payDirection[e.item.payType];
    if direction == Outgoing {
      var _ := ledger.PostCustomerDebit(DayOf(when), item.payType, "payment", paymentId, item.payCurrency,
                                        item.amount, e.accountId, rules.chart.deposits, rules.chart.cash);
    } else {
      var _ := ledger.PostCustomerCredit(DayOf(when), item.payType, "payment", paymentId, item.payCurrency,
                                         item.amount, e.accountId, rules.chart.deposits, rules.chart.cash);
    }
  }

  /** How far a payment gets: its final status and when it booked and settled. */
  method Progress(rules: Rules, ghost b: Book, balance: int, limit: nat, e: Event) returns (fate: Fate)
    requires e.item.Payment? && Fits(rules, b, e) && e.item.payType in rules.vocabulary.payDirection
    requires balance == b.balance[e.accountId - 1] && limit == rules.limits[e.accountId - 1]
    ensures fate == PayFate(rules, b, e)
  {
    var item, direction := e.item, rules.vocabulary.payDirection[e.item.payType];
    var posted := rules.vocabulary.PostsPay(item.payStatus);
    var status := item.payStatus;
    var bookedAt := if posted then Some(e.at + 17 * 60) else None;
    if bookedAt.Some? && bookedAt.value > rules.anchorEnd {
      posted := false;
      status := "pending";
      bookedAt := None;
    }
    var settledAt := None;
    if posted && (status == "settled" || status == "returned") {
      settledAt := Some(bookedAt.GetOr(e.at) + item.settleLag * DAY + 5 * 60);
      if settledAt.value > rules.anchorEnd {
        settledAt := None;
        status := "booked";
      }
    }
    var signed := if direction == Outgoing then -(item.amount as int) else item.amount;
    if posted && direction == Outgoing && balance + signed < -(limit as int) {
      posted := false;
      status := "rejected";
      bookedAt := None;
      settledAt := None;
    }
    return Fate(posted, status, bookedAt, settledAt);
  }

  /** Emits one payment. */
  method EmitPayment(rules: Rules, out: Outputs, paymentId: nat, e: Event)
    requires e.item.Payment? && out.accounts.Valid() && Fits(rules, out.View(), e)
    requires e.item.payType in rules.vocabulary.payDirection && paymentId == |out.pays.rows| + 1
    requires rules.vocabulary.Sound()
    modifies out.accounts`balance, out.accounts`updatedAt, out.ledger, out.pays
    ensures out.accounts.Valid() && out.View() == AfterPayment(rules, old(out.View()), e)
    ensures out.accounts.updatedAt == old(out.accounts.updatedAt)[e.accountId - 1 :=
              Later(old(out.accounts.updatedAt[e.accountId - 1]),
                    PayFate(rules, old(out.View()), e).bookedAt.GetOr(e.at))]
  {
    var index, item := e.accountId - 1, e.item;
    var fate := Progress(rules, out.View(), out.accounts.balance[index], rules.limits[index], e);
    var signed :=
      if rules.vocabulary.payDirection[item.payType] == Outgoing then -(item.amount as int) else item.amount;
    if fate.posted {
      out.accounts.balance := out.accounts.balance[index := out.accounts.balance[index] + signed];
    }
    out.accounts.updatedAt :=
        out.accounts.updatedAt[index := Later(out.accounts.updatedAt[index], fate.bookedAt.GetOr(e.at))];
    out.pays.rows :=
        out.pays.rows + [PayRow(paymentId, e.accountId, item.payType, item.scheme, fate.status, e.at, fate.bookedAt,
                                             fate.settledAt, item.amount, item.payCurrency)];
    if fate.posted {
      PostPayment(rules, out.ledger, paymentId, e, fate.bookedAt.GetOr(e.at));
    }
  }
}
