/** The double-entry writer: every batch balances, so every set of whole batches does. */
module Ledger {
  import opened Rows

  datatype Side = Debit | Credit

  /** One line the caller asks for: amount positive for a debit, negative for a credit. */
  datatype Leg = Leg(glAccount: string, amount: int, accountId: Option<nat>)

  datatype Posting = Posting(
    date: int, description: string, sourceCode: string, sourceId: nat, currency: string, legs: seq<Leg>)

  datatype BatchRow = BatchRow(batchId: nat, date: int, description: string, sourceCode: string, sourceId: nat)

  datatype EntryRow = EntryRow(
    entryId: nat, batchId: nat, date: int, glAccount: string, side: Side,
    amount: int, currency: string, accountId: Option<nat>)

  /** The two ledger tables and the two counters the writer numbers them with. */
  datatype Journal = Journal(batchId: nat, entryId: nat, batches: seq<BatchRow>, entries: seq<EntryRow>)

  function LegAmount(): Leg -> int {
    (leg: Leg) => leg.amount
  }

  function LegCarrying(accountId: nat): Leg -> int {
    (leg: Leg) => if leg.accountId == Some(accountId) then leg.amount else 0
  }

  /** An entry's amount when it carries the account, otherwise nothing. */
  function Carrying(accountId: nat): EntryRow -> int {
    (entry: EntryRow) => if entry.accountId == Some(accountId) then entry.amount else 0
  }

  /** An entry's amount when it is on the general-ledger account, otherwise nothing. */
  function OnAccount(glAccount: string): EntryRow -> int {
    (entry: EntryRow) => if entry.glAccount == glAccount then entry.amount else 0
  }

  function LegOn(glAccount: string): Leg -> int {
    (leg: Leg) => if leg.glAccount == glAccount then leg.amount else 0
  }

  /** An entry's amount when it falls on the day and currency, otherwise nothing. */
  function InCell(date: int, currency: string): EntryRow -> int {
    (entry: EntryRow) => if entry.date == date && entry.currency == currency then entry.amount else 0
  }

  /** The same cell, counting only batches numbered up to `batch`. */
  function InCellUpTo(batch: nat, date: int, currency: string): EntryRow -> int {
    (entry: EntryRow) =>
      if entry.batchId <= batch && entry.date == date && entry.currency == currency then entry.amount else 0
  }

  /** One for a batch raised by the event, so a sum counts an event's batches. */
  function RaisedBy(sourceCode: string, sourceId: nat): BatchRow -> int {
    (row: BatchRow) => if row.sourceCode == sourceCode && row.sourceId == sourceId then 1 else 0
  }

  function Truncated(text: string): string {
    if |text| <= 200 then text else text[..200]
  }

  /** A batch's description is kept to its first two hundred characters. */
  lemma {:induction false} DescriptionIsCut(text: string)
    ensures Truncated(text) <= text && |Truncated(text)| <= 200 && (|text| <= 200 ==> Truncated(text) == text)
    ensures |text| > 200 ==> |Truncated(text)| == 200
  {
  }

  /** The entry rows of a batch, zero lines dropped, numbered after `lastEntry`. */
  function Lines(p: Posting, batchId: nat, lastEntry: nat, legs: seq<Leg>): seq<EntryRow> {
    if legs == [] then []
    else
      var front, leg := Lines(p, batchId, lastEntry, legs[..|legs| - 1]), legs[|legs| - 1];
      if leg.amount == 0 then front
      else front + [EntryRow(lastEntry + |front| + 1, batchId, p.date, leg.glAccount,
                             if leg.amount > 0 then Debit else Credit, leg.amount, p.currency, leg.accountId)]
  }

  /** The journal after a batch that balances. */
  function AfterPosting(j: Journal, p: Posting): Journal {
    var lines := Lines(p, j.batchId + 1, j.entryId, p.legs);
    Journal(j.batchId + 1, j.entryId + |lines|,
            j.batches + [BatchRow(j.batchId + 1, p.date, Truncated(p.description), p.sourceCode, p.sourceId)],
            j.entries + lines)
  }

  /** Entries in batch order, numbered upwards, none of them zero or on the wrong side. */
  ghost predicate Ordered(j: Journal) {
    && (forall i :: 0 <= i < |j.entries| ==>
          j.entries[i].batchId <= j.batchId && j.entries[i].entryId <= j.entryId && j.entries[i].amount != 0
          && (j.entries[i].side == Debit <==> j.entries[i].amount > 0))
    && (forall i, k :: 0 <= i < k < |j.entries| ==>
          j.entries[i].batchId <= j.entries[k].batchId && j.entries[i].entryId < j.entries[k].entryId)
    && (forall i :: 0 <= i < |j.batches| ==> j.batches[i].batchId <= j.batchId)
    && (forall i, k :: 0 <= i < k < |j.batches| ==> j.batches[i].batchId < j.batches[k].batchId)
  }

  /** Every set of whole batches taken from the front nets to zero on every day in every currency. */
  ghost predicate Balanced(j: Journal) {
    forall batch: nat, date: int, currency: string ::
      Sum(j.entries, InCellUpTo(batch, date, currency)) == 0
  }

  ghost predicate BatchLines(lines: seq<EntryRow>, p: Posting, batchId: nat, lastEntry: nat) {
    forall i :: 0 <= i < |lines| ==>
      && lines[i].batchId == batchId && lines[i].date == p.date && lines[i].currency == p.currency
      && lines[i].entryId == lastEntry + i + 1 && lines[i].amount != 0
      && (lines[i].side == Debit <==> lines[i].amount > 0)
  }

  lemma {:induction false} LinesShape(p: Posting, batchId: nat, lastEntry: nat, legs: seq<Leg>)
    ensures BatchLines(Lines(p, batchId, lastEntry, legs), p, batchId, lastEntry)
  {
    if legs != [] {
      LinesShape(p, batchId, lastEntry, legs[..|legs| - 1]);
    }
  }

  /** Dropping zero lines loses no money: the lines of a batch sum as its legs do. */
  lemma {:induction false} LinesKeepAmounts(
    p: Posting, batchId: nat, lastEntry: nat, legs: seq<Leg>, date: int, currency: string, upTo: nat)
    ensures Sum(Lines(p, batchId, lastEntry, legs), InCellUpTo(upTo, date, currency))
         == if batchId <= upTo && p.date == date && p.currency == currency then Sum(legs, LegAmount()) else 0
  {
    if legs != [] {
      var front, leg := legs[..|legs| - 1], legs[|legs| - 1];
      LinesKeepAmounts(p, batchId, lastEntry, front, date, currency, upTo);
      var lines := Lines(p, batchId, lastEntry, front);
      if leg.amount != 0 {
        var all := Lines(p, batchId, lastEntry, legs);
        assert all == lines + [all[|lines|]];
        SumAppend(lines, all[|lines|], InCellUpTo(upTo, date, currency));
      } else {
        assert Lines(p, batchId, lastEntry, legs) == lines;
      }
    }
  }

  lemma {:induction false} LinesCarry(p: Posting, batchId: nat, lastEntry: nat, legs: seq<Leg>, accountId: nat)
    ensures Sum(Lines(p, batchId, lastEntry, legs), Carrying(accountId)) == Sum(legs, LegCarrying(accountId))
  {
    if legs != [] {
      var front, leg := legs[..|legs| - 1], legs[|legs| - 1];
      LinesCarry(p, batchId, lastEntry, front, accountId);
      var lines := Lines(p, batchId, lastEntry, front);
      if leg.amount != 0 {
        var all := Lines(p, batchId, lastEntry, legs);
        assert all == lines + [all[|lines|]];
        SumAppend(lines, all[|lines|], Carrying(accountId));
      } else {
        assert Lines(p, batchId, lastEntry, legs) == lines;
      }
    }
  }

  lemma {:induction false} LinesOn(p: Posting, batchId: nat, lastEntry: nat, legs: seq<Leg>, glAccount: string)
    ensures Sum(Lines(p, batchId, lastEntry, legs), OnAccount(glAccount)) == Sum(legs, LegOn(glAccount))
  {
    if legs != [] {
      var front, leg := legs[..|legs| - 1], legs[|legs| - 1];
      LinesOn(p, batchId, lastEntry, front, glAccount);
      var lines := Lines(p, batchId, lastEntry, front);
      if leg.amount != 0 {
        var all := Lines(p, batchId, lastEntry, legs);
        assert all == lines + [all[|lines|]];
        SumAppend(lines, all[|lines|], OnAccount(glAccount));
      } else {
        assert Lines(p, batchId, lastEntry, legs) == lines;
      }
    }
  }

  /** A batch moves a general-ledger account by exactly its legs on it. */
  lemma {:induction false} PostingMoves(j: Journal, p: Posting, glAccount: string)
    ensures Sum(AfterPosting(j, p).entries, OnAccount(glAccount))
         == Sum(j.entries, OnAccount(glAccount)) + Sum(p.legs, LegOn(glAccount))
  {
    SumConcat(j.entries, Lines(p, j.batchId + 1, j.entryId, p.legs), OnAccount(glAccount));
    LinesOn(p, j.batchId + 1, j.entryId, p.legs, glAccount);
  }

  lemma {:induction false} PostingKeepsOrder(j: Journal, p: Posting)
    requires Ordered(j)
    ensures Ordered(AfterPosting(j, p))
  {
    LinesShape(p, j.batchId + 1, j.entryId, p.legs);
    var lines := Lines(p, j.batchId + 1, j.entryId, p.legs);
    assert BatchLines(lines, p, j.batchId + 1, j.entryId);
    assert AfterPosting(j, p).entries == j.entries + lines;
  }

  /** A balanced batch keeps the journal ordered and balanced. */
  lemma {:induction false} PostingKeepsJournal(j: Journal, p: Posting)
    requires Ordered(j) && Balanced(j) && Sum(p.legs, LegAmount()) == 0
    ensures Ordered(AfterPosting(j, p)) && Balanced(AfterPosting(j, p))
  {
    PostingKeepsOrder(j, p);
    var lines := Lines(p, j.batchId + 1, j.entryId, p.legs);
    forall batch: nat, date: int, currency: string
      ensures Sum(AfterPosting(j, p).entries, InCellUpTo(batch, date, currency)) == 0
    {
      SumConcat(j.entries, lines, InCellUpTo(batch, date, currency));
      LinesKeepAmounts(p, j.batchId + 1, j.entryId, p.legs, date, currency, batch);
    }
  }

  /** A batch moves an account's carried total by exactly the legs that name it, and raises one batch row. */
  lemma {:induction false} PostingEffect(j: Journal, p: Posting, accountId: nat, sourceCode: string, sourceId: nat)
    ensures Sum(AfterPosting(j, p).entries, Carrying(accountId))
         == Sum(j.entries, Carrying(accountId)) + Sum(p.legs, LegCarrying(accountId))
    ensures Sum(AfterPosting(j, p).batches, RaisedBy(sourceCode, sourceId))
         == Sum(j.batches, RaisedBy(sourceCode, sourceId))
            + if p.sourceCode == sourceCode && p.sourceId == sourceId then 1 else 0
  {
    SumConcat(j.entries, Lines(p, j.batchId + 1, j.entryId, p.legs), Carrying(accountId));
    LinesCarry(p, j.batchId + 1, j.entryId, p.legs, accountId);
    var row := AfterPosting(j, p).batches[|j.batches|];
    SumAppend(j.batches, row, RaisedBy(sourceCode, sourceId));
  }

  /** Where a cut falls between two batches, everything before it nets to zero per day and currency. */
  lemma {:induction false} WholeBatchesNetToZero(j: Journal, cut: nat, date: int, currency: string)
    requires Ordered(j) && Balanced(j) && cut <= |j.entries|
    requires 0 < cut < |j.entries| ==> j.entries[cut - 1].batchId != j.entries[cut].batchId
    ensures Sum(j.entries[..cut], InCell(date, currency)) == 0
  {
    if cut > 0 {
      var batch := j.entries[cut - 1].batchId;
      var weight := InCellUpTo(batch, date, currency);
      assert j.entries == j.entries[..cut] + j.entries[cut..];
      SumConcat(j.entries[..cut], j.entries[cut..], weight);
      RestIsLater(j, cut, date, currency);
      FrontIsEarlier(j, cut, date, currency);
    }
  }

  lemma {:induction false} RestIsLater(j: Journal, cut: nat, date: int, currency: string)
    requires Ordered(j) && 0 < cut <= |j.entries|
    requires cut < |j.entries| ==> j.entries[cut - 1].batchId != j.entries[cut].batchId
    ensures Sum(j.entries[cut..], InCellUpTo(j.entries[cut - 1].batchId, date, currency)) == 0
  {
    var rest, weight := j.entries[cut..], InCellUpTo(j.entries[cut - 1].batchId, date, currency);
    forall i | 0 <= i < |rest| ensures weight(rest[i]) == 0 {
      assert rest[i] == j.entries[cut + i] && j.entries[cut].batchId <= j.entries[cut + i].batchId;
    }
    SumZero(rest, weight);
  }

  lemma {:induction false} FrontIsEarlier(j: Journal, cut: nat, date: int, currency: string)
    requires Ordered(j) && 0 < cut <= |j.entries|
    ensures Sum(j.entries[..cut], InCellUpTo(j.entries[cut - 1].batchId, date, currency))
            == Sum(j.entries[..cut], InCell(date, currency))
  {
    var front, weight := j.entries[..cut], InCellUpTo(j.entries[cut - 1].batchId, date, currency);
    forall i | 0 <= i < |front| ensures weight(front[i]) == InCell(date, currency)(front[i]) {
      assert front[i] == j.entries[i] && j.entries[i].batchId <= j.entries[cut - 1].batchId;
    }
    SumAgrees(front, weight, InCell(date, currency));
  }

  class LedgerWriter {
    var batchId: nat
    var entryId: nat
    var batchRows: seq<BatchRow>
    var entryRows: seq<EntryRow>

    /** A load counts from zero; a tick continues from the tables' high-water marks. */
    constructor (firstBatchId: nat, firstEntryId: nat)
      ensures View() == Journal(firstBatchId, firstEntryId, [], [])
    {
      batchId, entryId := firstBatchId, firstEntryId;
      batchRows, entryRows := [], [];
    }

    function View(): Journal
      reads this
    {
      Journal(batchId, entryId, batchRows, entryRows)
    }

    /** Writes the batch's entry rows, dropping zero lines. */
    method WriteLines(p: Posting)
      modifies this`entryId, this`entryRows
      ensures entryRows == old(entryRows) + Lines(p, batchId, old(entryId), p.legs)
      ensures entryId == old(entryId) + |Lines(p, batchId, old(entryId), p.legs)|
    {
      for i := 0 to |p.legs|
        invariant entryRows == old(entryRows) + Lines(p, batchId, old(entryId), p.legs[..i])
        invariant entryId == old(entryId) + |Lines(p, batchId, old(entryId), p.legs[..i])|
      {
        var leg := p.legs[i];
        assert p.legs[..i + 1][..i] == p.legs[..i];
        if leg.amount == 0 {
          continue;
        }
        entryId := entryId + 1;
        entryRows := entryRows + [EntryRow(entryId, batchId, p.date, leg.glAccount,
                                           if leg.amount > 0 then Debit else Credit,
                                           leg.amount, p.currency, leg.accountId)];
      }
      assert p.legs[..|p.legs|] == p.legs;
    }

    /** Writes one batch, or refuses and writes nothing. */
    method Post(p: Posting) returns (r: Result<nat>)
      modifies this
      ensures r.Refused? <==> Sum(p.legs, LegAmount()) != 0 || p.legs == []
      ensures r.Refused? ==> View() == old(View())
      ensures r.Ok? ==> View() == AfterPosting(old(View()), p) && r.value == batchId
    {
      var total := 0;
      for i := 0 to |p.legs|
        invariant View() == old(View())
        invariant total == Sum(p.legs[..i], LegAmount())
      {
        assert p.legs[..i + 1] == p.legs[..i] + [p.legs[i]];
        SumAppend(p.legs[..i], p.legs[i], LegAmount());
        total := total + p.legs[i].amount;
      }
      assert p.legs[..|p.legs|] == p.legs;
      if total != 0 {
        return Refused("batch does not balance");
      }
      if |p.legs| == 0 {
        return Refused("a posting batch needs at least one line");
      }
      batchId := batchId + 1;
      batchRows := batchRows + [BatchRow(batchId, p.date, Truncated(p.description), p.sourceCode, p.sourceId)];
      WriteLines(p);
      return Ok(batchId);
    }

    /** Money leaves the customer: deposits debited, the contra account credited. */
    method PostCustomerDebit(
      date: int, description: string, sourceCode: string, sourceId: nat, currency: string,
      amount: int, accountId: nat, deposits: string, contra: string) returns (r: Result<nat>)
      modifies this
      ensures r.Ok? && View() == AfterPosting(old(View()), Posting(date, description, sourceCode, sourceId, currency,
                                               CustomerDebit(deposits, contra, amount, accountId)))
    {
      CustomerLegsBalance(deposits, contra, amount, accountId, accountId);
      r := Post(Posting(date, description, sourceCode, sourceId, currency,
                        [Leg(deposits, amount, Some(accountId)), Leg(contra, -amount, None)]));
    }

    /** Money reaches the customer: the bank's liability rises. */
    method PostCustomerCredit(
      date: int, description: string, sourceCode: string, sourceId: nat, currency: string,
      amount: int, accountId: nat, deposits: string, contra: string) returns (r: Result<nat>)
      modifies this
      ensures r.Ok? && View() == AfterPosting(old(View()), Posting(date, description, sourceCode, sourceId, currency,
                                               CustomerCredit(deposits, contra, amount, accountId)))
    {
      CustomerLegsBalance(deposits, contra, amount, accountId, accountId);
      r := Post(Posting(date, description, sourceCode, sourceId, currency,
                        [Leg(contra, amount, None), Leg(deposits, -amount, Some(accountId))]));
    }
  }

  function CustomerDebit(deposits: string, contra: string, amount: int, accountId: nat): seq<Leg> {
    [Leg(deposits, amount, Some(accountId)), Leg(contra, -amount, None)]
  }

  function CustomerCredit(deposits: string, contra: string, amount: int, accountId: nat): seq<Leg> {
    [Leg(contra, amount, None), Leg(deposits, -amount, Some(accountId))]
  }

  lemma {:induction false} CustomerLegsBalance(
    deposits: string, contra: string, amount: int, accountId: nat, other: nat)
    ensures Sum(CustomerDebit(deposits, contra, amount, accountId), LegAmount()) == 0
    ensures Sum(CustomerCredit(deposits, contra, amount, accountId), LegAmount()) == 0
    ensures Sum(CustomerDebit(deposits, contra, amount, accountId), LegCarrying(other))
         == if other == accountId then amount else 0
    ensures Sum(CustomerCredit(deposits, contra, amount, accountId), LegCarrying(other))
         == if other == accountId then -amount else 0
  {
    SumPair(Leg(deposits, amount, Some(accountId)), Leg(contra, -amount, None), LegAmount());
    SumPair(Leg(contra, amount, None), Leg(deposits, -amount, Some(accountId)), LegAmount());
    SumPair(Leg(deposits, amount, Some(accountId)), Leg(contra, -amount, None), LegCarrying(other));
    SumPair(Leg(contra, amount, None), Leg(deposits, -amount, Some(accountId)), LegCarrying(other));
  }

  lemma {:induction false} SumPair(a: Leg, b: Leg, weight: Leg -> int)
    ensures Sum([a, b], weight) == weight(a) + weight(b)
  {
    assert [a, b] == [a] + [b];
    SumAppend([a], b, weight);
    SumAppend([], a, weight);
    assert [] + [a] == [a];
  }
}
