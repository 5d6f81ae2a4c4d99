/** The streaming chunker: it hands the ledger to the database in pieces that never split a posting batch. */
module Chunks {
  import opened Rows
  import L = Ledger
  import opened Spool

  predicate HasComma(s: string) {
    ',' in s
  }

  function BeforeComma(s: string): string {
    if s == "" || s[0] == ',' then "" else [s[0]] + BeforeComma(s[1..])
  }

  function AfterComma(s: string): string
    requires HasComma(s)
  {
    if s[0] == ',' then s[1..] else AfterComma(s[1..])
  }

  /** The second field of a line, which is the posting batch it belongs to. */
  function BatchField(line: string): string
    requires HasComma(line)
  {
    BeforeComma(AfterComma(line))
  }

  predicate Lines(lines: seq<string>) {
    forall i :: 0 <= i < |lines| ==> HasComma(lines[i])
  }

  function Concat(chunks: seq<seq<string>>): seq<string> {
    if chunks == [] then [] else Concat(chunks[..|chunks| - 1]) + chunks[|chunks| - 1]
  }

  /** How many lines at the end of a chunk belong to its last batch. */
  function TailRun(chunk: seq<string>): nat
    requires Lines(chunk)
  {
    if |chunk| <= 1 then |chunk|
    else if BatchField(chunk[|chunk| - 1]) == BatchField(chunk[|chunk| - 2]) then 1 + TailRun(chunk[..|chunk| - 1])
    else 1
  }

  /** A chunk that is not empty and passes its target by less than its last batch. */
  ghost predicate Sized(chunk: seq<string>, chunkRows: int) {
    chunk != [] && Lines(chunk) && |chunk| < chunkRows + TailRun(chunk)
  }

  /** One chunk ends where a batch does. */
  ghost predicate EndsBatch(chunk: seq<string>, next: seq<string>) {
    && chunk != [] && next != [] && Lines(chunk) && Lines(next)
    && BatchField(chunk[|chunk| - 1]) != BatchField(next[0])
  }

  /** What the chunker yields for any target of at least one row. */
  ghost predicate Chunked(chunks: seq<seq<string>>, chunkRows: int) {
    && (forall k :: 0 <= k < |chunks| ==> Sized(chunks[k], chunkRows))
    && (forall k :: 0 <= k < |chunks| - 1 ==> |chunks[k]| >= chunkRows)
    && (forall k, next :: 0 <= k && next == k + 1 && next < |chunks| ==> EndsBatch(chunks[k], chunks[next]))
  }

  /** Mid-file: the yielded chunks are right so far, each reached the target, and the open chunk continues them. */
  ghost predicate Streaming(chunks: seq<seq<string>>, chunk: seq<string>, chunkRows: int) {
    && Chunked(chunks, chunkRows) && (forall k :: 0 <= k < |chunks| ==> |chunks[k]| >= chunkRows)
    && (chunks != [] ==> EndsBatch(chunks[|chunks| - 1], chunk))
    && (chunk != [] ==> Sized(chunk, chunkRows))
  }

  lemma {:induction false} LineExtendsChunk(chunks: seq<seq<string>>, chunk: seq<string>, line: string, chunkRows: int)
    requires HasComma(line) && chunkRows >= 1 && Streaming(chunks, chunk, chunkRows)
    requires chunk != [] ==> BatchField(chunk[|chunk| - 1]) == BatchField(line) || |chunk| < chunkRows
    ensures Streaming(chunks, chunk + [line], chunkRows)
  {
    assert (chunk + [line])[..|chunk|] == chunk;
  }

  lemma {:induction false} YieldKeepsChunks(chunks: seq<seq<string>>, chunk: seq<string>, chunkRows: int)
    requires Streaming(chunks, chunk, chunkRows) && chunk != []
    ensures Chunked(chunks + [chunk], chunkRows)
  {
  }

  lemma {:induction false} LineOpensChunk(chunks: seq<seq<string>>, chunk: seq<string>, line: string, chunkRows: int)
    requires HasComma(line) && chunkRows >= 1 && Streaming(chunks, chunk, chunkRows)
    requires chunk != [] && |chunk| >= chunkRows && BatchField(chunk[|chunk| - 1]) != BatchField(line)
    ensures Streaming(chunks + [chunk], [line], chunkRows)
  {
    YieldKeepsChunks(chunks, chunk, chunkRows);
  }

  lemma {:induction false} ConcatAppend(chunks: seq<seq<string>>, chunk: seq<string>)
    ensures Concat(chunks + [chunk]) == Concat(chunks) + chunk
  {
    assert (chunks + [chunk])[..|chunks|] == chunks;
  }

  /** The chunker's state once `read` has been consumed; a target below one row has yielded an empty first chunk. */
  ghost predicate State(read: seq<string>, chunks: seq<seq<string>>, chunk: seq<string>, chunkRows: int) {
    && Concat(chunks) + chunk == read && Lines(chunk)
    && (read == [] ==> chunks == []) && (read != [] ==> chunk != [])
    && (chunkRows >= 1 ==> Streaming(chunks, chunk, chunkRows))
    && (chunkRows < 1 && read != [] ==> chunks != [] && chunks[0] == [])
  }

  lemma {:induction false} KeepStep(
    read: seq<string>, chunks: seq<seq<string>>, chunk: seq<string>, line: string, chunkRows: int)
    requires State(read, chunks, chunk, chunkRows) && HasComma(line)
    requires |chunk| < chunkRows || (read != [] && BatchField(chunk[|chunk| - 1]) == BatchField(line))
    ensures State(read + [line], chunks, chunk + [line], chunkRows)
  {
    if chunkRows >= 1 {
      LineExtendsChunk(chunks, chunk, line, chunkRows);
    }
    assert Concat(chunks) + (chunk + [line]) == read + [line];
  }

  lemma {:induction false} YieldStep(
    read: seq<string>, chunks: seq<seq<string>>, chunk: seq<string>, line: string, chunkRows: int)
    requires State(read, chunks, chunk, chunkRows) && HasComma(line) && |chunk| >= chunkRows
    requires read != [] ==> BatchField(chunk[|chunk| - 1]) != BatchField(line)
    ensures State(read + [line], chunks + [chunk], [line], chunkRows)
  {
    if chunkRows >= 1 {
      LineOpensChunk(chunks, chunk, line, chunkRows);
    }
    ConcatAppend(chunks, chunk);
  }

  lemma {:induction false} LastYield(
    read: seq<string>, chunks: seq<seq<string>>, chunk: seq<string>, chunkRows: int)
    requires State(read, chunks, chunk, chunkRows)
    ensures var all := if chunk == [] then chunks else chunks + [chunk];
            && Concat(all) == read && (chunkRows >= 1 ==> Chunked(all, chunkRows))
            && ((forall k :: 0 <= k < |all| ==> all[k] != []) <==> chunkRows >= 1 || read == [])
  {
    ConcatAppend(chunks, chunk);
    if chunkRows >= 1 && chunk != [] {
      YieldKeepsChunks(chunks, chunk, chunkRows);
    }
    if chunkRows < 1 && read != [] {
      assert (chunks + [chunk])[0] == [];
    }
  }

  /** Yields chunks of lines that never split a posting batch. A target below one row yields an empty chunk first. */
  method BatchedEntryChunks(lines: seq<string>, chunkRows: int) returns (chunks: seq<seq<string>>)
    requires Lines(lines)
    ensures Concat(chunks) == lines
    ensures chunkRows >= 1 ==> Chunked(chunks, chunkRows)
    ensures (forall k :: 0 <= k < |chunks| ==> chunks[k] != []) <==> chunkRows >= 1 || lines == []
  {
    chunks := [];
    var chunk: seq<string> := [];
    var currentBatch: Option<string> := None;
    for i := 0 to |lines|
      invariant State(lines[..i], chunks, chunk, chunkRows)
      invariant currentBatch == if i == 0 then None else Some(BatchField(chunk[|chunk| - 1]))
    {
      var batchId := BatchField(lines[i]);
      assert lines[..i + 1] == lines[..i] + [lines[i]];
      if |chunk| >= chunkRows && Some(batchId) != currentBatch {
        YieldStep(lines[..i], chunks, chunk, lines[i], chunkRows);
        chunks := chunks + [chunk];
        chunk := [];
      } else {
        KeepStep(lines[..i], chunks, chunk, lines[i], chunkRows);
      }
      currentBatch := Some(batchId);
      chunk := chunk + [lines[i]];
    }
    assert lines[..|lines|] == lines;
    LastYield(lines, chunks, chunk, chunkRows);
    if |chunk| > 0 {
      chunks := chunks + [chunk];
    }
  }

  // ---------------------------------------------------------------- whole batches

  /** Lines of one batch stand together. */
  ghost predicate Grouped(lines: seq<string>)
    requires Lines(lines)
  {
    forall i, j, k :: 0 <= i < j < k < |lines| && BatchField(lines[i]) == BatchField(lines[k]) ==>
      BatchField(lines[j]) == BatchField(lines[i])
  }

  lemma {:induction false} ConcatPrefix(chunks: seq<seq<string>>, k: nat)
    requires k <= |chunks|
    ensures |Concat(chunks[..k])| <= |Concat(chunks)|
    ensures Concat(chunks[..k]) == Concat(chunks)[..|Concat(chunks[..k])|]
    decreases |chunks|
  {
    if k == |chunks| {
      assert chunks[..k] == chunks;
    } else {
      ConcatPrefix(chunks[..|chunks| - 1], k);
      assert chunks[..|chunks| - 1][..k] == chunks[..k];
    }
  }

  lemma {:induction false} ConcatAll(chunks: seq<seq<string>>, k: nat)
    requires k <= |chunks|
    ensures k == |chunks| ==> Concat(chunks[..k]) == Concat(chunks)
  {
    assert k == |chunks| ==> chunks[..k] == chunks;
  }

  /** The line a chunk's boundary falls on: the chunk's own last line, then the next chunk's first. */
  lemma {:induction false} BoundaryLines(chunks: seq<seq<string>>, k: nat)
    requires 0 < k < |chunks| && chunks[k - 1] != [] && chunks[k] != []
    ensures var cut, lines := |Concat(chunks[..k])|, Concat(chunks);
            && 0 < cut < |lines| && lines[cut - 1] == chunks[k - 1][|chunks[k - 1]| - 1] && lines[cut] == chunks[k][0]
  {
    ConcatPrefix(chunks, k + 1);
    assert chunks[..k + 1][..k] == chunks[..k];
    assert chunks[..k][..k - 1] == chunks[..k - 1];
  }

  /** Where lines of a batch stand together, no batch appears on both sides of a chunk boundary. */
  lemma {:induction false} ChunksShareNoBatch(chunks: seq<seq<string>>, chunkRows: int, k: nat, i: nat, j: nat)
    requires Chunked(chunks, chunkRows) && Lines(Concat(chunks)) && Grouped(Concat(chunks))
    requires k <= |chunks| && i < |Concat(chunks[..k])| <= j < |Concat(chunks)|
    ensures BatchField(Concat(chunks)[i]) != BatchField(Concat(chunks)[j])
  {
    var lines, cut := Concat(chunks), |Concat(chunks[..k])|;
    ConcatAll(chunks, k);
    assert Sized(chunks[k], chunkRows);
    if k > 0 {
      assert Sized(chunks[k - 1], chunkRows);
      BoundaryLines(chunks, k);
      var last := k - 1;
      assert EndsBatch(chunks[last], chunks[k]);
      assert BatchField(lines[cut - 1]) != BatchField(lines[cut]);
    }
  }

  // ---------------------------------------------------------------- the ledger's own file

  /** The line the ledger writer spools for an entry; `others` are the columns after the first two. */
  function EntryLine(entry: L.EntryRow, others: L.EntryRow -> seq<Value>): string {
    FormatRow([Number(entry.entryId), Number(entry.batchId)] + others(entry))
  }

  function EntryLines(entries: seq<L.EntryRow>, others: L.EntryRow -> seq<Value>): seq<string> {
    seq(|entries|, i requires 0 <= i < |entries| => EntryLine(entries[i], others))
  }

  lemma {:induction false} SplitAtComma(s: string, rest: string)
    requires ',' !in s
    ensures HasComma(s + [','] + rest) && BeforeComma(s + [','] + rest) == s && AfterComma(s + [','] + rest) == rest
  {
    var whole := s + [','] + rest;
    assert whole[|s|] == ',';
    if s == "" {
      assert whole[1..] == rest;
    } else {
      SplitAtComma(s[1..], rest);
      assert whole[1..] == s[1..] + [','] + rest;
      assert s == [s[0]] + s[1..];
    }
  }

  lemma {:induction false} JoinedTwo(first: Value, second: Value, others: seq<Value>)
    requires others != []
    ensures Joined([first, second] + others)
            == FormatValue(first) + [','] + (FormatValue(second) + [','] + Joined(others))
  {
    var values := [first, second] + others;
    assert values[1..] == [second] + others && values[1..][1..] == others;
  }

  /** The chunker reads an entry's batch back from its line. */
  lemma {:induction false} EntryLineCarriesBatch(entry: L.EntryRow, others: L.EntryRow -> seq<Value>)
    requires others(entry) != []
    ensures HasComma(EntryLine(entry, others)) && BatchField(EntryLine(entry, others)) == IntText(entry.batchId)
  {
    var id, batch, after := IntText(entry.entryId), IntText(entry.batchId), Joined(others(entry)) + "\n";
    NoCommaInNumber(entry.entryId);
    NoCommaInNumber(entry.batchId);
    SplitAtComma(batch, after);
    SplitAtComma(id, batch + [','] + after);
    JoinedTwo(Number(entry.entryId), Number(entry.batchId), others(entry));
    assert EntryLine(entry, others) == id + [','] + (batch + [','] + after);
  }

  lemma {:induction false} NoCommaInNumber(n: int)
    ensures ',' !in IntText(n)
  {
    assert ',' in IntText(n) ==> NeedsQuoting(IntText(n));
  }

  lemma {:induction false} EntryLinesAreLines(entries: seq<L.EntryRow>, others: L.EntryRow -> seq<Value>)
    requires forall e :: others(e) != []
    ensures Lines(EntryLines(entries, others))
    ensures forall i :: 0 <= i < |entries| ==> BatchField(EntryLines(entries, others)[i]) == IntText(entries[i].batchId)
  {
    forall i | 0 <= i < |entries|
      ensures HasComma(EntryLines(entries, others)[i])
      ensures BatchField(EntryLines(entries, others)[i]) == IntText(entries[i].batchId)
    {
      EntryLineCarriesBatch(entries[i], others);
    }
  }

  /** Between two entries of one batch stand only entries of that batch. */
  lemma {:induction false} BatchesStandTogether(j: L.Journal, a: nat, b: nat, c: nat)
    requires L.Ordered(j) && a < b < c < |j.entries| && IntText(j.entries[a].batchId) == IntText(j.entries[c].batchId)
    ensures j.entries[b].batchId == j.entries[a].batchId
  {
    DigitsDetermineNumber(j.entries[a].batchId);
    DigitsDetermineNumber(j.entries[c].batchId);
  }

  /** The ledger writer numbers batches upwards, so its file keeps each batch together. */
  lemma {:induction false} LedgerFileIsGrouped(j: L.Journal, others: L.EntryRow -> seq<Value>)
    requires L.Ordered(j) && forall e :: others(e) != []
    ensures Lines(EntryLines(j.entries, others)) && Grouped(EntryLines(j.entries, others))
  {
    EntryLinesAreLines(j.entries, others);
    var lines := EntryLines(j.entries, others);
    forall a, b, c | 0 <= a < b < c < |lines| && BatchField(lines[a]) == BatchField(lines[c])
      ensures BatchField(lines[b]) == BatchField(lines[a])
    {
      BatchesStandTogether(j, a, b, c);
    }
  }

  /** However the ledger's file is chunked, everything committed after any chunk nets to zero per day and currency. */
  lemma {:induction false} CommittedPrefixNetsToZero(
    j: L.Journal, others: L.EntryRow -> seq<Value>, chunks: seq<seq<string>>, chunkRows: int, k: nat,
    date: int, currency: string)
    requires L.Ordered(j) && L.Balanced(j) && forall e :: others(e) != []
    requires Concat(chunks) == EntryLines(j.entries, others) && Chunked(chunks, chunkRows) && k <= |chunks|
    ensures |Concat(chunks[..k])| <= |j.entries|
    ensures Sum(j.entries[..|Concat(chunks[..k])|], L.InCell(date, currency)) == 0
  {
    EntryLinesAreLines(j.entries, others);
    ConcatPrefix(chunks, k);
    var cut := |Concat(chunks[..k])|;
    if 0 < cut < |j.entries| {
      ConcatAll(chunks, k);
      var last := k - 1;
      assert Sized(chunks[last], chunkRows) && Sized(chunks[k], chunkRows) && EndsBatch(chunks[last], chunks[k]);
      BoundaryLines(chunks, k);
    }
    L.WholeBatchesNetToZero(j, cut, date, currency);
  }
}
