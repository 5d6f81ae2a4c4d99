/** What every run of the movement fold keeps true: the balance, ledger and overdraft invariants. */
module Books {
  import opened Rows
  import L = Ledger
  import opened Emission

  /** A transaction row's amount when it belongs to the account and its final status is posted. */
  function TxnMoved(v: Vocabulary, accountId: nat): TxnRow -> int {
    (row: TxnRow) => if row.accountId == accountId && v.PostsTxn(row.status) then row.amount else 0
  }

  /** A payment row's signed amount when it belongs to the account and its final status is posted. */
  function PayMoved(v: Vocabulary, accountId: nat): PayRow -> int {
    (row: PayRow) =>
      if row.accountId == accountId && v.PostsPay(row.status)
      then if v.PayWay(row.typeCode) == Outgoing then -(row.amount as int) else row.amount
      else 0
  }

  /** What the posted rows say an account holds. */
  function Explained(v: Vocabulary, b: Book, accountId: nat): int {
    Sum(b.txns, TxnMoved(v, accountId)) + Sum(b.pays, PayMoved(v, accountId))
  }

  /** Each balance is explained by posted rows, mirrored by the ledger, and within its overdraft. */
  ghost predicate BalancesSound(rules: Rules, b: Book) {
    && |b.balance| == |rules.limits|
    && forall a :: 1 <= a <= |b.balance| ==>
         && b.balance[a - 1] == Explained(rules.vocabulary, b, a)
         && b.balance[a - 1] == -Sum(b.journal.entries, L.Carrying(a))
         && b.balance[a - 1] >= -(rules.limits[a - 1] as int)
  }

  /** The number of ledger batches an event raised. */
  function BatchesOf(b: Book, sourceCode: string, id: nat): int {
    Sum(b.journal.batches, L.RaisedBy(sourceCode, id))
  }

  /** Ids count from one, and an event has exactly one batch when it posted and none when it did not. */
  ghost predicate PostingsSound(v: Vocabulary, b: Book) {
    && (forall i :: 0 <= i < |b.txns| ==> b.txns[i].id == i + 1)
    && (forall i :: 0 <= i < |b.pays| ==> b.pays[i].id == i + 1)
    && (forall id: nat :: BatchesOf(b, "transaction", id)
          == if 1 <= id <= |b.txns| && v.PostsTxn(b.txns[id - 1].status) then 1 else 0)
    && (forall id: nat :: BatchesOf(b, "payment", id)
          == if 1 <= id <= |b.pays| && v.PostsPay(b.pays[id - 1].status) then 1 else 0)
  }

  /** A payment's dates follow its final status: booked exactly when posted, settled in order and by the anchor. */
  ghost predicate PaymentDated(rules: Rules, row: PayRow) {
    && (row.bookedAt.Some? <==> rules.vocabulary.PostsPay(row.status))
    && (row.bookedAt.Some? ==> row.initiatedAt < row.bookedAt.value <= rules.anchorEnd)
    && (row.settledAt.Some? ==> row.bookedAt.Some? && row.bookedAt.value < row.settledAt.value <= rules.anchorEnd)
    && (row.settledAt.Some? <==> row.bookedAt.Some? && (row.status == "settled" || row.status == "returned"))
  }

  ghost predicate Sound(rules: Rules, b: Book) {
    && BalancesSound(rules, b) && PostingsSound(rules.vocabulary, b)
    && L.Ordered(b.journal) && L.Balanced(b.journal)
    && forall i :: 0 <= i < |b.pays| ==> PaymentDated(rules, b.pays[i])
  }

  /** A run over any sequence of events, in the order they are emitted. */
  function Run(rules: Rules, b: Book, events: seq<Event>): (after: Book)
    requires forall i :: 0 <= i < |events| ==> Fits(rules, b, events[i])
    ensures |after.balance| == |b.balance|
  {
    if events == [] then b
    else
      var front, last := events[..|events| - 1], events[|events| - 1];
      assert Fits(rules, b, last);
      AfterEvent(rules, Run(rules, b, front), last)
  }

  /** What one account's posted rows and ledger entries gain from one transaction. */
  lemma {:induction false} TransactionMoves(rules: Rules, b: Book, e: Event, a: nat)
    requires e.item.Transaction? && Fits(rules, b, e) && rules.vocabulary.Sound()
    ensures var after, moved := AfterTransaction(rules, b, e),
                                if TxnPosts(rules, b, e) && a == e.accountId then TxnSigned(rules, e) else 0;
            && Explained(rules.vocabulary, after, a) == Explained(rules.vocabulary, b, a) + moved
            && Sum(after.journal.entries, L.Carrying(a)) == Sum(b.journal.entries, L.Carrying(a)) - moved
  {
    var after := AfterTransaction(rules, b, e);
    SumAppend(b.txns, after.txns[|b.txns|], TxnMoved(rules.vocabulary, a));
    L.PostingEffect(b.journal, TxnPosting(rules, |b.txns| + 1, e), a, "", 0);
    TxnLegsBalance(rules, e, a);
  }

  lemma {:induction false} PaymentMoves(rules: Rules, b: Book, e: Event, a: nat)
    requires e.item.Payment? && Fits(rules, b, e) && rules.vocabulary.Sound()
    ensures var after, moved := AfterPayment(rules, b, e),
                                if PayFate(rules, b, e).posted && a == e.accountId then PaySigned(rules, e) else 0;
            && Explained(rules.vocabulary, after, a) == Explained(rules.vocabulary, b, a) + moved
            && Sum(after.journal.entries, L.Carrying(a)) == Sum(b.journal.entries, L.Carrying(a)) - moved
  {
    var after := AfterPayment(rules, b, e);
    SumAppend(b.pays, after.pays[|b.pays|], PayMoved(rules.vocabulary, a));
    L.PostingEffect(b.journal, PayPosting(rules, |b.pays| + 1, e), a, "", 0);
    PayLegsBalance(rules, e, a);
  }

  /** A book whose rows and entries move with its balances, and whose debits respect the limit, stays sound. */
  lemma {:induction false} MovedBalancesSound(rules: Rules, b: Book, after: Book, account: nat, moved: int)
    requires BalancesSound(rules, b) && 1 <= account <= |b.balance|
    requires |after.balance| == |b.balance|
    requires forall i :: 0 <= i < |b.balance| ==>
               after.balance[i] == b.balance[i] + if i == account - 1 then moved else 0
    requires b.balance[account - 1] + moved >= -(rules.limits[account - 1] as int)
    requires forall a :: 1 <= a <= |b.balance| ==>
               && Explained(rules.vocabulary, after, a)
                 == Explained(rules.vocabulary, b, a) + (if a == account then moved else 0)
               && Sum(after.journal.entries, L.Carrying(a))
                 == Sum(b.journal.entries, L.Carrying(a)) - if a == account then moved else 0
    ensures BalancesSound(rules, after)
  {
  }

  lemma {:induction false} TransactionKeepsBalances(rules: Rules, b: Book, e: Event)
    requires e.item.Transaction? && Fits(rules, b, e) && BalancesSound(rules, b) && rules.vocabulary.Sound()
    ensures BalancesSound(rules, AfterTransaction(rules, b, e))
  {
    var after, moved := AfterTransaction(rules, b, e), if TxnPosts(rules, b, e) then TxnSigned(rules, e) else 0;
    forall a | 1 <= a <= |b.balance|
      ensures Explained(rules.vocabulary, after, a)
              == Explained(rules.vocabulary, b, a) + (if a == e.accountId then moved else 0)
      ensures Sum(after.journal.entries, L.Carrying(a))
           == Sum(b.journal.entries, L.Carrying(a)) - if a == e.accountId then moved else 0
    {
      TransactionMoves(rules, b, e, a);
    }
    assert b.balance[e.accountId - 1] == Explained(rules.vocabulary, b, e.accountId);
    MovedBalancesSound(rules, b, after, e.accountId, moved);
  }

  lemma {:induction false} PaymentKeepsBalances(rules: Rules, b: Book, e: Event)
    requires e.item.Payment? && Fits(rules, b, e) && BalancesSound(rules, b) && rules.vocabulary.Sound()
    ensures BalancesSound(rules, AfterPayment(rules, b, e))
  {
    var after, moved := AfterPayment(rules, b, e), if PayFate(rules, b, e).posted then PaySigned(rules, e) else 0;
    forall a | 1 <= a <= |b.balance|
      ensures Explained(rules.vocabulary, after, a)
              == Explained(rules.vocabulary, b, a) + (if a == e.accountId then moved else 0)
      ensures Sum(after.journal.entries, L.Carrying(a))
           == Sum(b.journal.entries, L.Carrying(a)) - if a == e.accountId then moved else 0
    {
      PaymentMoves(rules, b, e, a);
    }
    assert b.balance[e.accountId - 1] == Explained(rules.vocabulary, b, e.accountId);
    MovedBalancesSound(rules, b, after, e.accountId, moved);
  }

  lemma {:induction false} TransactionKeepsPostings(rules: Rules, b: Book, e: Event)
    requires e.item.Transaction? && Fits(rules, b, e) && rules.vocabulary.Sound()
    requires PostingsSound(rules.vocabulary, b)
    ensures PostingsSound(rules.vocabulary, AfterTransaction(rules, b, e))
  {
    var after := AfterTransaction(rules, b, e);
    var posting := TxnPosting(rules, |b.txns| + 1, e);
    forall id: nat
      ensures BatchesOf(after, "transaction", id)
           == if 1 <= id <= |after.txns| && rules.vocabulary.PostsTxn(after.txns[id - 1].status) then 1 else 0
    {
      L.PostingEffect(b.journal, posting, 0, "transaction", id);
      assert BatchesOf(b, "transaction", id) == Sum(b.journal.batches, L.RaisedBy("transaction", id));
    }
    forall id: nat
      ensures BatchesOf(after, "payment", id)
           == if 1 <= id <= |after.pays| && rules.vocabulary.PostsPay(after.pays[id - 1].status) then 1 else 0
    {
      L.PostingEffect(b.journal, posting, 0, "payment", id);
      assert BatchesOf(b, "payment", id) == Sum(b.journal.batches, L.RaisedBy("payment", id));
    }
  }

  lemma {:induction false} PaymentKeepsPostings(rules: Rules, b: Book, e: Event)
    requires e.item.Payment? && Fits(rules, b, e) && rules.vocabulary.Sound()
    requires PostingsSound(rules.vocabulary, b)
    ensures PostingsSound(rules.vocabulary, AfterPayment(rules, b, e))
  {
    var after := AfterPayment(rules, b, e);
    var posting := PayPosting(rules, |b.pays| + 1, e);
    forall id: nat
      ensures BatchesOf(after, "transaction", id)
           == if 1 <= id <= |after.txns| && rules.vocabulary.PostsTxn(after.txns[id - 1].status) then 1 else 0
    {
      L.PostingEffect(b.journal, posting, 0, "transaction", id);
      assert BatchesOf(b, "transaction", id) == Sum(b.journal.batches, L.RaisedBy("transaction", id));
    }
    forall id: nat
      ensures BatchesOf(after, "payment", id)
           == if 1 <= id <= |after.pays| && rules.vocabulary.PostsPay(after.pays[id - 1].status) then 1 else 0
    {
      L.PostingEffect(b.journal, posting, 0, "payment", id);
      assert BatchesOf(b, "payment", id) == Sum(b.journal.batches, L.RaisedBy("payment", id));
    }
  }

  lemma {:induction false} TransactionKeepsSound(rules: Rules, b: Book, e: Event)
    requires e.item.Transaction? && Fits(rules, b, e) && Sound(rules, b) && rules.vocabulary.Sound()
    ensures Sound(rules, AfterTransaction(rules, b, e))
  {
    TransactionKeepsBalances(rules, b, e);
    TransactionKeepsPostings(rules, b, e);
    TxnLegsBalance(rules, e, 0);
    L.PostingKeepsJournal(b.journal, TxnPosting(rules, |b.txns| + 1, e));
  }

  /** A payment's row is dated as its final status says. */
  lemma {:induction false} PaymentIsDated(rules: Rules, b: Book, e: Event)
    requires e.item.Payment? && Fits(rules, b, e) && rules.vocabulary.Sound()
    ensures PaymentDated(rules, AfterPayment(rules, b, e).pays[|b.pays|])
  {
  }

  lemma {:induction false} PaymentKeepsSound(rules: Rules, b: Book, e: Event)
    requires e.item.Payment? && Fits(rules, b, e) && Sound(rules, b) && rules.vocabulary.Sound()
    ensures Sound(rules, AfterPayment(rules, b, e))
  {
    PaymentKeepsBalances(rules, b, e);
    PaymentKeepsPostings(rules, b, e);
    PayLegsBalance(rules, e, 0);
    L.PostingKeepsJournal(b.journal, PayPosting(rules, |b.pays| + 1, e));
    PaymentIsDated(rules, b, e);
  }

  /** One movement, of either kind, keeps every invariant. */
  lemma {:induction false} EventKeepsSound(rules: Rules, b: Book, e: Event)
    requires Fits(rules, b, e) && Sound(rules, b) && rules.vocabulary.Sound()
    ensures Sound(rules, AfterEvent(rules, b, e))
  {
    if e.item.Transaction? {
      TransactionKeepsSound(rules, b, e);
    } else {
      PaymentKeepsSound(rules, b, e);
    }
  }

  /** After every event of any run, whatever is drawn, declined or still in flight, the book is sound. */
  lemma {:induction false} EveryRunIsSound(rules: Rules, b: Book, events: seq<Event>)
    requires forall i :: 0 <= i < |events| ==> Fits(rules, b, events[i])
    requires Sound(rules, b) && rules.vocabulary.Sound()
    ensures Sound(rules, Run(rules, b, events))
  {
    if events != [] {
      EveryRunIsSound(rules, b, events[..|events| - 1]);
      EventKeepsSound(rules, Run(rules, b, events[..|events| - 1]), events[|events| - 1]);
    }
  }

  /** The book before the first event. */
  function Empty(accounts: nat): Book {
    Book(seq(accounts, _ => 0), 0, [], [], L.Journal(0, 0, [], []))
  }

  lemma {:induction false} EmptyIsSound(rules: Rules)
    ensures Sound(rules, Empty(|rules.limits|))
  {
  }

  /** The three statements the repository checks by query, for any run from an empty book: balances equal posted
      movements, debits equal credits per day and currency, and every posted event reached the ledger once. */
  lemma {:induction false} RunReconciles(rules: Rules, events: seq<Event>, a: nat, date: int, currency: string, id: nat)
    requires forall i :: 0 <= i < |events| ==> Fits(rules, Empty(|rules.limits|), events[i])
    requires rules.vocabulary.Sound()
    requires 1 <= a <= |rules.limits|
    ensures var b := Run(rules, Empty(|rules.limits|), events);
            && b.balance[a - 1] == Explained(rules.vocabulary, b, a) == -Sum(b.journal.entries, L.Carrying(a))
            && b.balance[a - 1] >= -(rules.limits[a - 1] as int)
            && Sum(b.journal.entries, L.InCell(date, currency)) == 0
            && (1 <= id <= |b.txns| ==>
                  BatchesOf(b, "transaction", id) == if rules.vocabulary.PostsTxn(b.txns[id - 1].status) then 1 else 0)
            && (1 <= id <= |b.pays| ==>
                  BatchesOf(b, "payment", id) == if rules.vocabulary.PostsPay(b.pays[id - 1].status) then 1 else 0)
  {
    EmptyIsSound(rules);
    EveryRunIsSound(rules, Empty(|rules.limits|), events);
    var j := Run(rules, Empty(|rules.limits|), events).journal;
    L.WholeBatchesNetToZero(j, |j.entries|, date, currency);
    assert j.entries[..|j.entries|] == j.entries;
  }
}
