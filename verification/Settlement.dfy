/** Settlement totals of delivered files: within one file sequence the highest revision replaces the others, and
    sequences add. */
module Settlement {
  import opened Rows
  import Sorting

  /** One batch trailer; amounts are in minor units. */
  datatype Trailer = Trailer(date: int, sequence: int, revision: int, network: string, currency: string, amount: int) {
    function File(): FileKey {
      FileKey(date, sequence)
    }

    function Cell(): CellKey {
      CellKey(date, network, currency)
    }
  }

  datatype FileKey = FileKey(date: int, sequence: int)

  datatype CellKey = CellKey(date: int, network: string, currency: string)

  function Max(a: int, b: int): int {
    if a < b then b else a
  }

  /** The highest revision of a file, counting from zero. */
  function Top(totals: seq<Trailer>, file: FileKey): (top: int)
    ensures top >= 0
    ensures forall r :: r in totals && r.File() == file ==> r.revision <= top
    ensures top == 0 || exists r :: r in totals && r.File() == file && r.revision == top
  {
    if totals == [] then 0
    else
      var before, last := Top(totals[..|totals| - 1], file), totals[|totals| - 1];
      if last.File() == file then Max(before, last.revision) else before
  }

  predicate Current(totals: seq<Trailer>, r: Trailer) {
    r.revision == Top(totals, r.File())
  }

  /** Trailers supersede one another within a day's file sequence, and are added up by day, network and currency. */
  lemma {:induction false} KeysTellTrailersApart(a: Trailer, b: Trailer)
    ensures a.File() == b.File() <==> a.date == b.date && a.sequence == b.sequence
    ensures a.Cell() == b.Cell() <==> a.date == b.date && a.network == b.network && a.currency == b.currency
  {
  }

  function InCell(cell: CellKey): Trailer -> int {
    (r: Trailer) => if r.Cell() == cell then r.amount else 0
  }

  function CurrentIn(totals: seq<Trailer>, cell: CellKey): Trailer -> int {
    (r: Trailer) => if r.Cell() == cell && Current(totals, r) then r.amount else 0
  }

  function SupersededIn(totals: seq<Trailer>, cell: CellKey): Trailer -> int {
    (r: Trailer) => if r.Cell() == cell && !Current(totals, r) then r.amount else 0
  }

  /** The file side of a cell, where it has one. */
  function FileTotal(totals: seq<Trailer>, cell: CellKey): Option<int> {
    if exists r :: r in totals && r.Cell() == cell && Current(totals, r) then Some(Sum(totals, CurrentIn(totals, cell)))
    else None
  }

  function Found<K(!new)>(m: map<K, int>, key: K): Option<int> {
    if key in m then Some(m[key]) else None
  }

  /** A dictionary of files holds exactly the rows' files, each with its highest revision. */
  ghost predicate Tops(rows: seq<Trailer>, highest: map<FileKey, int>) {
    && (forall r :: r in rows ==> r.File() in highest)
    && (forall file :: file in highest ==> highest[file] == Top(rows, file))
    && (forall file :: file !in highest ==> Top(rows, file) == 0)
  }

  /** The dictionary with one more trailer's revision. */
  function Raised(highest: map<FileKey, int>, r: Trailer): map<FileKey, int> {
    highest[r.File() := Max(Found(highest, r.File()).GetOr(0), r.revision)]
  }

  lemma {:induction false} NextTop(rows: seq<Trailer>, r: Trailer, highest: map<FileKey, int>)
    requires Tops(rows, highest)
    ensures Tops(rows + [r], Raised(highest, r))
  {
    forall file
      ensures Top(rows + [r], file) == if r.File() == file then Max(Top(rows, file), r.revision) else Top(rows, file)
    {
      TopOfNext(rows, r, file);
    }
  }

  lemma {:induction false} TopOfNext(rows: seq<Trailer>, r: Trailer, file: FileKey)
    ensures Top(rows + [r], file) == if r.File() == file then Max(Top(rows, file), r.revision) else Top(rows, file)
  {
    assert (rows + [r])[..|rows|] == rows;
  }

  method Highest(totals: seq<Trailer>) returns (highest: map<FileKey, int>)
    ensures Tops(totals, highest)
  {
    highest := map[];
    for n := 0 to |totals|
      invariant Tops(totals[..n], highest)
    {
      assert totals[..n + 1] == totals[..n] + [totals[n]];
      NextTop(totals[..n], totals[n], highest);
      highest := Raised(highest, totals[n]);
    }
    assert totals[..|totals|] == totals;
  }

  /** The two sides of the report, cell by cell: the highest revisions, and every batch. */
  method Totals(totals: seq<Trailer>) returns (fileSide: map<CellKey, int>, summed: map<CellKey, int>)
    ensures forall cell :: Found(fileSide, cell) == FileTotal(totals, cell)
    ensures forall cell :: cell in summed <==> exists r :: r in totals && r.Cell() == cell
    ensures forall cell :: cell in summed ==> summed[cell] == Sum(totals, InCell(cell))
  {
    var highest := Highest(totals);
    fileSide, summed := map[], map[];
    for n := 0 to |totals|
      invariant SumsCells(totals[..n], Every(), c => InCell(c), summed)
      invariant SumsCells(totals[..n], CurrentOnes(totals), c => CurrentIn(totals, c), fileSide)
    {
      var r := totals[n];
      assert r in totals && totals[..n + 1] == totals[..n] + [r];
      NextCell(totals[..n], r, Every(), c => InCell(c), summed);
      NextCell(totals[..n], r, CurrentOnes(totals), c => CurrentIn(totals, c), fileSide);
      summed := summed[r.Cell() := Found(summed, r.Cell()).GetOr(0) + r.amount];
      if r.revision == highest[r.File()] {
        fileSide := fileSide[r.Cell() := Found(fileSide, r.Cell()).GetOr(0) + r.amount];
      }
    }
    assert totals[..|totals|] == totals;
    forall cell ensures Found(fileSide, cell) == FileTotal(totals, cell) {
      assert HasCell(totals, CurrentOnes(totals), cell)
             <==> exists r :: r in totals && r.Cell() == cell && Current(totals, r);
    }
    forall cell ensures cell in summed <==> exists r :: r in totals && r.Cell() == cell {
      assert HasCell(totals, Every(), cell) <==> exists r :: r in totals && r.Cell() == cell;
    }
  }

  function Every(): Trailer -> bool {
    (_: Trailer) => true
  }

  function CurrentOnes(totals: seq<Trailer>): Trailer -> bool {
    (r: Trailer) => Current(totals, r)
  }

  ghost predicate HasCell(rows: seq<Trailer>, counts: Trailer -> bool, cell: CellKey) {
    exists r :: r in rows && counts(r) && r.Cell() == cell
  }

  /** A dictionary of cells holds exactly the cells of the rows that count, each with their sum. */
  ghost predicate SumsCells(
      rows: seq<Trailer>, counts: Trailer -> bool, weight: CellKey -> Trailer -> int, cells: map<CellKey, int>) {
    && (forall cell :: cell in cells <==> HasCell(rows, counts, cell))
    && (forall cell :: cell in cells ==> cells[cell] == Sum(rows, weight(cell)))
  }

  lemma {:induction false} NextHasCell(rows: seq<Trailer>, r: Trailer, counts: Trailer -> bool, cell: CellKey)
    ensures HasCell(rows + [r], counts, cell) <==> HasCell(rows, counts, cell) || (counts(r) && r.Cell() == cell)
  {
    if counts(r) && r.Cell() == cell {
      assert r in rows + [r];
    }
    if HasCell(rows, counts, cell) {
      var other :| other in rows && counts(other) && other.Cell() == cell;
      assert other in rows + [r];
    }
  }

  lemma {:induction false} NextSum(
    rows: seq<Trailer>, r: Trailer, counts: Trailer -> bool, weight: Trailer -> int, cell: CellKey)
    requires forall other :: weight(other) == if other.Cell() == cell && counts(other) then other.amount else 0
    ensures Sum(rows + [r], weight) == Sum(rows, weight) + weight(r)
    ensures !HasCell(rows, counts, cell) ==> Sum(rows, weight) == 0
  {
    SumAppend(rows, r, weight);
    if !HasCell(rows, counts, cell) {
      forall i | 0 <= i < |rows| ensures weight(rows[i]) == 0 {
        assert rows[i] in rows;
      }
      SumZero(rows, weight);
    }
  }

  lemma {:induction false} NextCell(
      rows: seq<Trailer>, r: Trailer, counts: Trailer -> bool, weight: CellKey -> Trailer -> int,
      cells: map<CellKey, int>)
    requires SumsCells(rows, counts, weight, cells)
    requires forall cell, other ::
               weight(cell)(other) == if other.Cell() == cell && counts(other) then other.amount else 0
    ensures counts(r) ==>
              SumsCells(rows + [r], counts, weight, cells[r.Cell() := Found(cells, r.Cell()).GetOr(0) + r.amount])
    ensures !counts(r) ==> SumsCells(rows + [r], counts, weight, cells)
  {
    forall cell
      ensures HasCell(rows + [r], counts, cell) <==> HasCell(rows, counts, cell) || (counts(r) && r.Cell() == cell)
      ensures Sum(rows + [r], weight(cell)) == Sum(rows, weight(cell)) + weight(cell)(r)
      ensures !HasCell(rows, counts, cell) ==> Sum(rows, weight(cell)) == 0
    {
      NextHasCell(rows, r, counts, cell);
      NextSum(rows, r, counts, weight(cell), cell);
    }
  }

  // ---------------------------------------------------------------- what the rule means

  /** No other trailer of the same file has a higher revision. */
  ghost predicate Superseding(totals: seq<Trailer>, r: Trailer) {
    forall other :: other in totals && other.File() == r.File() ==> other.revision <= r.revision
  }

  /** A trailer counts exactly when nothing supersedes it and its revision is not negative: a file whose every
      revision is negative is left out of the file side altogether. */
  lemma {:induction false} CurrentMeansHighest(totals: seq<Trailer>, r: Trailer)
    requires r in totals
    ensures Current(totals, r) <==> Superseding(totals, r) && r.revision >= 0
  {
    var top := Top(totals, r.File());
    if Superseding(totals, r) && r.revision >= 0 && top != 0 {
      var other :| other in totals && other.File() == r.File() && other.revision == top;
    }
  }

  lemma {:induction false} TopIgnoresOrder(a: seq<Trailer>, b: seq<Trailer>, file: FileKey)
    requires forall r :: r in a <==> r in b
    ensures Top(a, file) == Top(b, file)
  {
    if Top(a, file) != 0 {
      var r :| r in a && r.File() == file && r.revision == Top(a, file);
      assert r in b;
    }
    if Top(b, file) != 0 {
      var r :| r in b && r.File() == file && r.revision == Top(b, file);
      assert r in a;
    }
  }

  /** Arrival order makes no difference to any cell. */
  lemma {:induction false} FileTotalIgnoresOrder(a: seq<Trailer>, b: seq<Trailer>, cell: CellKey)
    requires multiset(a) == multiset(b)
    ensures FileTotal(a, cell) == FileTotal(b, cell)
  {
    forall r ensures (r in a <==> r in b) && Current(a, r) == Current(b, r) {
      forall other ensures other in a <==> other in b {
        Sorting.SameMembers(a, b, other);
      }
      TopIgnoresOrder(a, b, r.File());
    }
    SumIgnoresOrder(a, b, CurrentIn(a, cell));
    SumAgrees(b, CurrentIn(a, cell), CurrentIn(b, cell));
  }

  /** A late arrival that is already superseded changes no cell. */
  lemma {:induction false} SupersededChangesNothing(totals: seq<Trailer>, late: Trailer, cell: CellKey)
    requires late.revision < Top(totals, late.File())
    ensures FileTotal(totals + [late], cell) == FileTotal(totals, cell)
  {
    var longer := totals + [late];
    assert longer[..|totals|] == totals;
    assert forall file :: Top(longer, file) == Top(totals, file);
    SumAppend(totals, late, CurrentIn(longer, cell));
    SumAgrees(totals, CurrentIn(longer, cell), CurrentIn(totals, cell));
    assert forall r :: r in longer && Current(longer, r) <==> r in totals && Current(totals, r);
  }

  /** The plain sum is the file side plus what was superseded. */
  lemma {:induction false} PlainSumSplits(totals: seq<Trailer>, rows: seq<Trailer>, cell: CellKey)
    ensures Sum(rows, InCell(cell)) == Sum(rows, CurrentIn(totals, cell)) + Sum(rows, SupersededIn(totals, cell))
  {
    if rows != [] {
      PlainSumSplits(totals, rows[..|rows| - 1], cell);
    }
  }

  /** A trailer of the same file has a higher revision. */
  ghost predicate Superseded(totals: seq<Trailer>, r: Trailer) {
    exists other :: other in totals && other.File() == r.File() && other.revision > r.revision
  }

  /** A cell of the plain sum differs from the file side exactly when it has no current trailer or the amounts that do
      not count do not cancel; so only where a trailer is superseded or its revision is negative. */
  lemma {:induction false} DoublingNeedsASupersededTrailer(totals: seq<Trailer>, cell: CellKey)
    requires exists r :: r in totals && r.Cell() == cell
    ensures FileTotal(totals, cell) != Some(Sum(totals, InCell(cell))) <==>
              FileTotal(totals, cell).None? || Sum(totals, SupersededIn(totals, cell)) != 0
    ensures FileTotal(totals, cell) != Some(Sum(totals, InCell(cell))) ==>
              exists r :: r in totals && r.Cell() == cell && (Superseded(totals, r) || r.revision < 0)
  {
    PlainSumSplits(totals, totals, cell);
    if forall r :: r in totals && r.Cell() == cell ==> !Superseded(totals, r) && r.revision >= 0 {
      forall r | r in totals && r.Cell() == cell ensures Current(totals, r) {
        CurrentMeansHighest(totals, r);
      }
      forall i | 0 <= i < |totals| ensures SupersededIn(totals, cell)(totals[i]) == 0 {
        assert totals[i] in totals;
      }
      SumZero(totals, SupersededIn(totals, cell));
    }
  }

  // ---------------------------------------------------------------- breaks against the ledger

  datatype Severity = Warn | Error

  function Abs(n: int): int {
    if n < 0 then -n else n
  }

  /** A difference below a thousandth of the file total and below a hundred units warns; any other is an error. */
  function SeverityOf(fileTotal: int, ledgerTotal: int): Option<Severity> {
    var difference := Abs(fileTotal - ledgerTotal);
    if difference == 0 then None
    else if 1000 * difference < Abs(fileTotal) && difference < 100_00 then Some(Warn)
    else Some(Error)
  }

  function Rank(s: Option<Severity>): int {
    match s
    case None => 0
    case Some(Warn) => 1
    case Some(Error) => 2
  }

  /** A ledger further from the file is never a lesser break. */
  lemma {:induction false} SeverityGrowsWithTheDifference(fileTotal: int, near: int, far: int)
    requires Abs(fileTotal - near) <= Abs(fileTotal - far)
    ensures Rank(SeverityOf(fileTotal, near)) <= Rank(SeverityOf(fileTotal, far))
    ensures SeverityOf(fileTotal, near) == None <==> near == fileTotal
  {
  }

  /** A cell that agrees is no break; one whose totals differ by less than a hundred units, and by less than a
      thousandth of the file's, warns; any other is an error. */
  lemma {:induction false} SeverityExactly(fileTotal: int, ledgerTotal: int)
    ensures var apart, size := Abs(fileTotal - ledgerTotal), Abs(fileTotal);
            && (SeverityOf(fileTotal, ledgerTotal) == None <==> fileTotal == ledgerTotal)
            && (SeverityOf(fileTotal, ledgerTotal) == Some(Warn) <==>
                  fileTotal != ledgerTotal && apart < 100_00 && apart * 1000 < size)
            && (SeverityOf(fileTotal, ledgerTotal) == Some(Error) <==>
                  fileTotal != ledgerTotal && (apart >= 100_00 || apart * 1000 >= size))
            && apart >= 0 && (apart == fileTotal - ledgerTotal || apart == ledgerTotal - fileTotal)
  {
  }

  /** Compares every cell either side has. */
  method Compare(
    fileSide: map<CellKey, int>, ledger: map<CellKey, int>)
    returns (detected: map<CellKey, (Severity, int)>)
    ensures forall cell :: cell in detected <==> Found(fileSide, cell).GetOr(0) != Found(ledger, cell).GetOr(0)
    ensures forall cell :: cell in detected ==>
              && SeverityOf(Found(fileSide, cell).GetOr(0), Found(ledger, cell).GetOr(0)) == Some(detected[cell].0)
              && Found(fileSide, cell).GetOr(0) == Found(ledger, cell).GetOr(0) + detected[cell].1
  {
    detected := map[];
    var left := fileSide.Keys + ledger.Keys;
    while left != {}
      invariant left <= fileSide.Keys + ledger.Keys
      invariant forall cell :: cell in detected <==>
                  cell !in left && Found(fileSide, cell).GetOr(0) != Found(ledger, cell).GetOr(0)
      invariant forall cell :: cell in detected ==>
                  && SeverityOf(Found(fileSide, cell).GetOr(0), Found(ledger, cell).GetOr(0)) == Some(detected[cell].0)
                  && Found(fileSide, cell).GetOr(0) == Found(ledger, cell).GetOr(0) + detected[cell].1
      decreases left
    {
      var cell :| cell in left;
      var fileTotal, ledgerTotal := Found(fileSide, cell).GetOr(0), Found(ledger, cell).GetOr(0);
      var verdict := SeverityOf(fileTotal, ledgerTotal);
      if verdict.Some? {
        detected := detected[cell := (verdict.value, fileTotal - ledgerTotal)];
      }
      left := left - {cell};
    }
  }
}
