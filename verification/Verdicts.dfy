/** What becomes of each movement, told from the balance it meets: which debits are refused, what every row says, which
    ledger account faces the customer's, and when a run refuses nothing. */
module Verdicts {
  import opened Rows
  import opened Calendar
  import L = Ledger
  import opened Emission
  import opened Books

  // ---------------------------------------------------------------- one movement

  /** The account's balance, once this much has left it, is below its overdraft limit. */
  predicate Overdraws(rules: Rules, b: Book, account: nat, amount: nat)
    requires 1 <= account <= |b.balance| && |b.balance| == |rules.limits|
  {
    b.balance[account - 1] - amount < -(rules.limits[account - 1] as int)
  }

  /** A transaction in a posting status is declined exactly when it is a debit its account cannot bear; then nothing
      moves, and otherwise exactly its magnitude does. One in any other status moves nothing and keeps its status. */
  lemma {:induction false} TransactionVerdict(rules: Rules, b: Book, e: Event)
    requires e.item.Transaction? && Fits(rules, b, e) && e.item.typeCode in rules.vocabulary.txnDirection
    ensures var v, i, m, after := rules.vocabulary, e.accountId - 1, e.item.magnitude, AfterEvent(rules, b, e);
            var posting := e.item.status in v.txnPosted && v.txnPosted[e.item.status];
            var debit := v.txnDirection[e.item.typeCode] == Outgoing;
            var refused := posting && debit && Overdraws(rules, b, e.accountId, m);
            var moved := if !posting || refused then 0 else if debit then -(m as int) else m;
            && after.balance == b.balance[i := b.balance[i] + moved]
            && after.declined == b.declined + (if refused then 1 else 0)
            && after.pays == b.pays
            && after.txns == b.txns
               + [TxnRow(|b.txns| + 1, e.accountId, e.item.cardId, e.item.typeCode,
                         if refused then "declined" else e.item.status,
                         if !refused then e.item.authOutcome
                         else if e.item.cardId.None? then None else Some("declined_funds"),
                         e.at, e.item.valueDate, if debit then -(m as int) else m, e.item.currency)]
            && (!posting || refused ==> after.journal == b.journal)
  {
  }

  /** A payment whose status posts is pending when it would book past the anchor, else rejected exactly when it is a
      debit its account cannot bear; otherwise it moves exactly its amount. */
  lemma {:induction false} PaymentVerdict(rules: Rules, b: Book, e: Event)
    requires e.item.Payment? && Fits(rules, b, e) && e.item.payType in rules.vocabulary.payDirection
    ensures var v, i, m, after := rules.vocabulary, e.accountId - 1, e.item.amount, AfterEvent(rules, b, e);
            var posting := e.item.payStatus in v.payPosted && v.payPosted[e.item.payStatus];
            var early := posting && e.at + 17 * 60 > rules.anchorEnd;
            var debit := v.payDirection[e.item.payType] == Outgoing;
            var refused := posting && !early && debit && Overdraws(rules, b, e.accountId, m);
            var moved := if !posting || early || refused then 0 else if debit then -(m as int) else m;
            && after.balance == b.balance[i := b.balance[i] + moved]
            && after.txns == b.txns && after.declined == b.declined
            && (!posting || early || refused ==> after.journal == b.journal)
            && (early ==> LastPayment(after).status == "pending")
            && (refused ==> LastPayment(after).status == "rejected")
            && (!posting ==> LastPayment(after).status == e.item.payStatus)
            && (LastPayment(after).bookedAt.Some? <==> posting && !early && !refused)
  {
  }

  /** The row a payment adds. */
  function LastPayment(after: Book): PayRow
    requires after.pays != []
  {
    after.pays[|after.pays| - 1]
  }

  /** A payment that posts books seventeen minutes on; one that is to settle, or be returned, does so its lag and five
      minutes later if the anchor allows, and is left booked if it does not. */
  lemma {:induction false} PostedPaymentIsDated(rules: Rules, b: Book, e: Event)
    requires e.item.Payment? && Fits(rules, b, e)
    requires LastPayment(AfterEvent(rules, b, e)).bookedAt.Some?
    ensures var row := LastPayment(AfterEvent(rules, b, e));
            var settles := e.at + 17 * 60 + e.item.settleLag * DAY + 5 * 60;
            && row.bookedAt == Some(e.at + 17 * 60)
            && if e.item.payStatus != "settled" && e.item.payStatus != "returned"
               then row.status == e.item.payStatus && row.settledAt == None
               else if settles > rules.anchorEnd then row.status == "booked" && row.settledAt == None
               else row.status == e.item.payStatus && row.settledAt == Some(settles)
  {
  }

  /** A payment's row is the payment. */
  lemma {:induction false} PaymentIsRecorded(rules: Rules, b: Book, e: Event)
    requires e.item.Payment? && Fits(rules, b, e)
    ensures var after := AfterEvent(rules, b, e);
            && |after.pays| == |b.pays| + 1 && after.pays[..|b.pays|] == b.pays
            && LastPayment(after).id == |b.pays| + 1 && LastPayment(after).accountId == e.accountId
            && LastPayment(after).typeCode == e.item.payType && LastPayment(after).scheme == e.item.scheme
            && LastPayment(after).initiatedAt == e.at && LastPayment(after).amount == e.item.amount
            && LastPayment(after).currency == e.item.payCurrency
  {
  }

  /** What a movement that posts adds to the ledger: one batch for it, on the day it books, in its currency. */
  ghost predicate OneBatch(before: L.Journal, after: L.Journal, day: int, sourceCode: string, id: nat, currency: string)
  {
    && |after.batches| == |before.batches| + 1 && after.batches[..|before.batches|] == before.batches
    && (var batch := after.batches[|before.batches|];
        && batch.batchId == before.batchId + 1 && batch.date == day
        && batch.sourceCode == sourceCode && batch.sourceId == id)
    && before.entries <= after.entries
    && forall i :: |before.entries| <= i < |after.entries| ==>
        && after.entries[i].batchId == before.batchId + 1 && after.entries[i].date == day
        && after.entries[i].currency == currency
  }

  lemma {:induction false} PostingIsOneBatch(j: L.Journal, p: L.Posting)
    ensures OneBatch(j, L.AfterPosting(j, p), p.date, p.sourceCode, p.sourceId, p.currency)
  {
    L.LinesShape(p, j.batchId + 1, j.entryId, p.legs);
  }

  /** A transaction's batch is dated the day it happened, a payment's the day it booked. */
  lemma {:induction false} BatchesAreDated(rules: Rules, b: Book, e: Event)
    requires Fits(rules, b, e)
    ensures AfterEvent(rules, b, e).journal != b.journal ==>
              if e.item.Transaction?
              then OneBatch(b.journal, AfterEvent(rules, b, e).journal, DayOf(e.at), "transaction", |b.txns| + 1,
                            e.item.currency)
              else OneBatch(b.journal, AfterEvent(rules, b, e).journal, DayOf(e.at + 17 * 60), "payment",
                            |b.pays| + 1, e.item.payCurrency)
  {
    if e.item.Transaction? {
      PostingIsOneBatch(b.journal, TxnPosting(rules, |b.txns| + 1, e));
    } else {
      PostingIsOneBatch(b.journal, PayPosting(rules, |b.pays| + 1, e));
    }
  }

  // ---------------------------------------------------------------- the other side of a movement

  /** No two of the accounts a plain movement can face are the same. */
  predicate Separate(c: Chart) {
    var faces := [c.fees, c.fx, c.interestExpense, c.suspense, c.cash];
    c.deposits !in faces && forall i, k :: 0 <= i < k < |faces| ==> faces[i] != faces[k]
  }

  /** What a plain movement that posts moves on a general-ledger account. */
  function MovedOn(rules: Rules, b: Book, e: Event, gl: string): int
    requires Fits(rules, b, e)
  {
    Sum(AfterEvent(rules, b, e).journal.entries, L.OnAccount(gl)) - Sum(b.journal.entries, L.OnAccount(gl))
  }

  lemma {:induction false} PlainLegs(rules: Rules, b: Book, e: Event, gl: string)
    requires e.item.Transaction? && e.item.principal.None? && Fits(rules, b, e) && TxnPosts(rules, b, e)
    ensures var signed := TxnSigned(rules, e);
            MovedOn(rules, b, e, gl)
            == (if gl == rules.chart.deposits then -signed else 0)
               + (if gl == rules.chart.Contra(e.item.typeCode) then signed else 0)
  {
    var legs := TxnLegs(rules, e);
    assert |legs| == 2 && legs == [legs[0], legs[1]];
    L.SumPair(legs[0], legs[1], L.LegOn(gl));
    L.PostingMoves(b.journal, TxnPosting(rules, |b.txns| + 1, e), gl);
  }

  /** A fee is earned on the fees account and nowhere else; a currency margin, interest paid, an adjustment and every
      other movement each on their own. */
  lemma {:induction false} EveryKindFacesItsAccount(rules: Rules, b: Book, e: Event)
    requires e.item.Transaction? && e.item.principal.None? && Fits(rules, b, e) && Separate(rules.chart)
    requires AfterEvent(rules, b, e).balance != b.balance
    ensures var c, kind := rules.chart, e.item.typeCode;
            var signed := AfterEvent(rules, b, e).balance[e.accountId - 1] - b.balance[e.accountId - 1];
            && MovedOn(rules, b, e, c.deposits) == -signed
            && MovedOn(rules, b, e, c.fees)
               == (if kind in ["account_fee", "maintenance_fee", "card_issue_fee"] then signed else 0)
            && MovedOn(rules, b, e, c.fx) == (if kind == "fx_markup" then signed else 0)
            && MovedOn(rules, b, e, c.interestExpense)
               == (if kind in ["interest_posting", "interest_accrual"] then signed else 0)
            && MovedOn(rules, b, e, c.suspense)
               == (if kind in ["chargeback_adjustment", "write_off", "internal_reclass"] then signed else 0)
            && MovedOn(rules, b, e, c.cash)
               == signed - MovedOn(rules, b, e, c.fees) - MovedOn(rules, b, e, c.fx)
                  - MovedOn(rules, b, e, c.interestExpense) - MovedOn(rules, b, e, c.suspense)
  {
    var c := rules.chart;
    var faces := [c.fees, c.fx, c.interestExpense, c.suspense, c.cash];
    assert faces[0] == c.fees && faces[1] == c.fx && faces[2] == c.interestExpense && faces[3] == c.suspense
           && faces[4] == c.cash;
    PlainLegs(rules, b, e, c.deposits);
    PlainLegs(rules, b, e, c.fees);
    PlainLegs(rules, b, e, c.fx);
    PlainLegs(rules, b, e, c.interestExpense);
    PlainLegs(rules, b, e, c.suspense);
    PlainLegs(rules, b, e, c.cash);
  }

  // ---------------------------------------------------------------- whole runs

  /** What the rows of a run say does not change as it goes on. */
  lemma {:induction false} RowsStand(rules: Rules, b: Book, events: seq<Event>, n: nat)
    requires n <= |events| && forall i :: 0 <= i < |events| ==> Fits(rules, b, events[i])
    ensures Run(rules, b, events[..n]).txns <= Run(rules, b, events).txns
    ensures Run(rules, b, events[..n]).pays <= Run(rules, b, events).pays
  {
    if n == |events| {
      assert events[..n] == events;
    } else {
      var front := events[..|events| - 1];
      RowsStand(rules, b, front, n);
      assert front[..n] == events[..n];
    }
  }

  /** The book an event of a run meets. */
  function Met(rules: Rules, b: Book, events: seq<Event>, n: nat): (met: Book)
    requires n <= |events| && forall i :: 0 <= i < |events| ==> Fits(rules, b, events[i])
    ensures |met.balance| == |b.balance|
  {
    Run(rules, b, events[..n])
  }

  lemma {:induction false} NextMet(rules: Rules, b: Book, events: seq<Event>, n: nat)
    requires n < |events| && forall i :: 0 <= i < |events| ==> Fits(rules, b, events[i])
    ensures Fits(rules, Met(rules, b, events, n), events[n])
    ensures Met(rules, b, events, n + 1) == AfterEvent(rules, Met(rules, b, events, n), events[n])
  {
    assert events[..n + 1][..n] == events[..n];
    assert Fits(rules, b, events[n]);
  }

  /** The event takes money from its account, if the account can bear it. */
  predicate Debits(rules: Rules, e: Event) {
    if e.item.Transaction? then
      rules.vocabulary.PostsTxn(e.item.status) && rules.vocabulary.TxnWay(e.item.typeCode) == Outgoing
    else
      && rules.vocabulary.PostsPay(e.item.payStatus) && e.at + 17 * 60 <= rules.anchorEnd
      && rules.vocabulary.PayWay(e.item.payType) == Outgoing
  }

  function Size(e: Event): nat {
    if e.item.Transaction? then e.item.magnitude else e.item.amount
  }

  /** A debit that its account, as it stands by then, cannot bear. */
  predicate RefusedAt(rules: Rules, b: Book, events: seq<Event>, n: nat)
    requires n < |events| && forall i :: 0 <= i < |events| ==> Fits(rules, b, events[i])
  {
    assert Fits(rules, b, events[n]);
    Debits(rules, events[n]) && Overdraws(rules, Met(rules, b, events, n), events[n].accountId, Size(events[n]))
  }

  /** Over a whole run the transaction rows marked declined are exactly the debits their accounts could not bear when
      their turn came, and the payment rows marked rejected likewise. */
  lemma {:induction false} EveryVerdictStands(rules: Rules, b: Book, events: seq<Event>, n: nat)
    requires n < |events| && forall i :: 0 <= i < |events| ==> Fits(rules, b, events[i])
    ensures var met, all, e := Met(rules, b, events, n), Run(rules, b, events), events[n];
            if e.item.Transaction? then
              && |met.txns| < |all.txns|
              && all.txns[|met.txns|].status == if RefusedAt(rules, b, events, n) then "declined" else e.item.status
            else
              && |met.pays| < |all.pays|
              && (RefusedAt(rules, b, events, n) ==> all.pays[|met.pays|].status == "rejected")
              && (!RefusedAt(rules, b, events, n) && e.item.payStatus != "rejected" ==>
                    all.pays[|met.pays|].status != "rejected")
  {
    NextMet(rules, b, events, n);
    RowsStand(rules, b, events, n + 1);
    var met, next, all := Met(rules, b, events, n), Met(rules, b, events, n + 1), Run(rules, b, events);
    if events[n].item.Transaction? {
      assert next.txns[|met.txns|] == all.txns[|met.txns|];
    } else {
      assert next.pays[|met.pays|] == all.pays[|met.pays|];
    }
  }

  /** What the event asks to move on the account. */
  function Asked(rules: Rules, account: nat): Event -> int {
    (e: Event) =>
      if e.accountId != account then 0
      else if e.item.Transaction? then
        if !rules.vocabulary.PostsTxn(e.item.status) then 0
        else if rules.vocabulary.TxnWay(e.item.typeCode) == Outgoing then -(e.item.magnitude as int)
        else e.item.magnitude
      else if !rules.vocabulary.PostsPay(e.item.payStatus) || e.at + 17 * 60 > rules.anchorEnd then 0
      else if rules.vocabulary.PayWay(e.item.payType) == Outgoing then -(e.item.amount as int)
      else e.item.amount
  }

  /** What the account would hold had everything before been granted, with this event, is within its limit. */
  predicate Bearable(rules: Rules, b: Book, events: seq<Event>, n: nat)
    requires n < |events| && Fits(rules, b, events[n])
  {
    var account := events[n].accountId;
    Debits(rules, events[n]) ==>
      b.balance[account - 1] + Sum(events[..n + 1], Asked(rules, account)) >= -(rules.limits[account - 1] as int)
  }

  /** An event that is not refused moves exactly what it asks. */
  lemma {:induction false} GrantedMoves(rules: Rules, b: Book, e: Event, account: nat)
    requires Fits(rules, b, e) && 1 <= account <= |b.balance|
    requires !(Debits(rules, e) && Overdraws(rules, b, e.accountId, Size(e)))
    ensures AfterEvent(rules, b, e).balance[account - 1] == b.balance[account - 1] + Asked(rules, account)(e)
  {
  }

  /** Where nothing is refused every balance is what was asked. */
  lemma {:induction false} UnrefusedRunIsPlain(rules: Rules, b: Book, events: seq<Event>, n: nat, account: nat)
    requires n <= |events| && forall i :: 0 <= i < |events| ==> Fits(rules, b, events[i])
    requires forall i :: 0 <= i < n ==> !RefusedAt(rules, b, events, i)
    requires 1 <= account <= |b.balance|
    ensures Met(rules, b, events, n).balance[account - 1]
         == b.balance[account - 1] + Sum(events[..n], Asked(rules, account))
  {
    if n > 0 {
      UnrefusedRunIsPlain(rules, b, events, n - 1, account);
      NextMet(rules, b, events, n - 1);
      assert events[..n] == events[..n - 1] + [events[n - 1]];
      SumAppend(events[..n - 1], events[n - 1], Asked(rules, account));
      assert !RefusedAt(rules, b, events, n - 1);
      GrantedMoves(rules, Met(rules, b, events, n - 1), events[n - 1], account);
    }
  }

  /** A run refuses nothing if and only if every debit would be within its account's limit had all before it been
      granted; and then every account ends with exactly what was asked of it. */
  lemma {:induction false} NothingIsRefusedExactlyWhenBearable(rules: Rules, b: Book, events: seq<Event>)
    requires |b.balance| == |rules.limits| && forall i :: 0 <= i < |events| ==> Fits(rules, b, events[i])
    ensures (forall n :: 0 <= n < |events| ==> !RefusedAt(rules, b, events, n))
            <==> (forall n :: 0 <= n < |events| ==> Bearable(rules, b, events, n))
    ensures (forall n :: 0 <= n < |events| ==> Bearable(rules, b, events, n)) ==>
              forall account :: 1 <= account <= |b.balance| ==>
                Run(rules, b, events).balance[account - 1]
                == b.balance[account - 1] + Sum(events, Asked(rules, account))
  {
    if forall n :: 0 <= n < |events| ==> !RefusedAt(rules, b, events, n) {
      forall n | 0 <= n < |events| ensures Bearable(rules, b, events, n) {
        RefusedUnlessBearable(rules, b, events, n);
      }
    }
    if forall n :: 0 <= n < |events| ==> Bearable(rules, b, events, n) {
      BearableIsNotRefused(rules, b, events, |events|);
      assert events[..|events|] == events;
      forall account | 1 <= account <= |b.balance|
        ensures Run(rules, b, events).balance[account - 1]
             == b.balance[account - 1] + Sum(events, Asked(rules, account))
      {
        UnrefusedRunIsPlain(rules, b, events, |events|, account);
      }
    }
  }

  /** While nothing has been refused before it, an event is refused exactly when it is not bearable. */
  lemma {:induction false} RefusedUnlessBearable(rules: Rules, b: Book, events: seq<Event>, n: nat)
    requires n < |events| && forall i :: 0 <= i < |events| ==> Fits(rules, b, events[i])
    requires forall i :: 0 <= i < n ==> !RefusedAt(rules, b, events, i)
    ensures RefusedAt(rules, b, events, n) <==> !Bearable(rules, b, events, n)
  {
    var account := events[n].accountId;
    UnrefusedRunIsPlain(rules, b, events, n, account);
    assert events[..n + 1] == events[..n] + [events[n]];
    SumAppend(events[..n], events[n], Asked(rules, account));
  }

  lemma {:induction false} BearableIsNotRefused(rules: Rules, b: Book, events: seq<Event>, n: nat)
    requires n <= |events| && forall i :: 0 <= i < |events| ==> Fits(rules, b, events[i])
    requires forall i :: 0 <= i < n ==> Bearable(rules, b, events, i)
    ensures forall i :: 0 <= i < n ==> !RefusedAt(rules, b, events, i)
  {
    if n > 0 {
      BearableIsNotRefused(rules, b, events, n - 1);
      RefusedUnlessBearable(rules, b, events, n - 1);
    }
  }
}
