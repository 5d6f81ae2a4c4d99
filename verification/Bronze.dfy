/** The columns a bronze model takes from every version of its contract, and when each is delivered. */
module Bronze {
  import opened Rows
  import opened Contracts

  predicate Carries(c: Contract, name: string) {
    exists i :: 0 <= i < |c.columns| && c.columns[i].name == name
  }

  function Names(columns: seq<Column>): seq<string> {
    if columns == [] then [] else Names(columns[..|columns| - 1]) + [columns[|columns| - 1].name]
  }

  function AllNames(versions: seq<Contract>): seq<string> {
    if versions == [] then [] else AllNames(versions[..|versions| - 1]) + Names(versions[|versions| - 1].columns)
  }

  /** Each name once, where it first appears. */
  function Firsts(names: seq<string>): seq<string> {
    if names == [] then []
    else
      var front, last := Firsts(names[..|names| - 1]), names[|names| - 1];
      if last in front then front else front + [last]
  }

  function FirstAt(names: seq<string>, name: string): (i: nat)
    requires name in names
    ensures i < |names| && names[i] == name && name !in names[..i]
  {
    if names[0] == name then 0 else 1 + FirstAt(names[1..], name)
  }

  /** The union holds exactly the names there are, each once, in the order of first appearance. */
  lemma {:induction false} FirstsAreTheUnion(names: seq<string>)
    ensures forall name :: name in Firsts(names) <==> name in names
    ensures forall i, j :: 0 <= i < j < |Firsts(names)| ==>
              Firsts(names)[i] != Firsts(names)[j]
              && Firsts(names)[i] in names && Firsts(names)[j] in names
              && FirstAt(names, Firsts(names)[i]) < FirstAt(names, Firsts(names)[j])
  {
    if names != [] {
      var n := |names| - 1;
      var front, last := names[..n], names[n];
      FirstsAreTheUnion(front);
      assert names == front + [last];
      var firsts := Firsts(names);
      forall i, j | 0 <= i < j < |firsts|
        ensures firsts[i] != firsts[j] && firsts[i] in names && firsts[j] in names
        ensures FirstAt(names, firsts[i]) < FirstAt(names, firsts[j])
      {
        FirstInFront(front, last, firsts[i]);
        if firsts[j] in front {
          FirstInFront(front, last, firsts[j]);
        } else {
          assert FirstAt(names, firsts[j]) == n;
        }
      }
    }
  }

  lemma {:induction false} FirstInFront(front: seq<string>, last: string, name: string)
    requires name in front
    ensures name in front + [last] && FirstAt(front + [last], name) == FirstAt(front, name)
  {
    var names := front + [last];
    var i, j := FirstAt(front, name), FirstAt(names, name);
    assert names[i] == name && front == names[..|front|];
    forall k | 0 <= k < j ensures names[k] in names[..j] {
      assert names[..j][k] == names[k];
    }
    forall k | 0 <= k < i ensures front[k] in front[..i] {
      assert front[..i][k] == front[k];
    }
    assert j < |front| ==> front[j] == name;
  }

  /** One version's names, added behind the ones already there. */
  method AddNames(order: seq<string>, columns: seq<Column>, ghost before: seq<string>) returns (longer: seq<string>)
    requires order == Firsts(before)
    ensures longer == Firsts(before + Names(columns))
  {
    longer := order;
    assert before + Names(columns[..0]) == before;
    for k := 0 to |columns|
      invariant longer == Firsts(before + Names(columns[..k]))
    {
      NextName(before, columns, k);
      if columns[k].name !in longer {
        longer := longer + [columns[k].name];
      }
    }
    assert columns[..|columns|] == columns;
  }

  lemma {:induction false} NextName(before: seq<string>, columns: seq<Column>, k: nat)
    requires k < |columns|
    ensures var front, name := Firsts(before + Names(columns[..k])), columns[k].name;
            Firsts(before + Names(columns[..k + 1])) == if name in front then front else front + [name]
  {
    assert columns[..k + 1][..k] == columns[..k];
    var names := before + Names(columns[..k + 1]);
    assert names[..|names| - 1] == before + Names(columns[..k]);
  }

  method Union(versions: seq<Contract>) returns (order: seq<string>)
    ensures order == Firsts(AllNames(versions))
  {
    order := [];
    for n := 0 to |versions|
      invariant order == Firsts(AllNames(versions[..n]))
    {
      order := AddNames(order, versions[n].columns, AllNames(versions[..n]));
      assert versions[..n + 1][..n] == versions[..n];
    }
    assert versions[..|versions|] == versions;
  }

  lemma {:induction false} NamesHold(columns: seq<Column>, name: string)
    ensures name in Names(columns) <==> exists i :: 0 <= i < |columns| && columns[i].name == name
  {
    if columns != [] {
      NamesHold(columns[..|columns| - 1], name);
      if name == columns[|columns| - 1].name {
        assert columns[|columns| - 1].name == name;
      }
    }
  }

  ghost predicate SomeCarries(versions: seq<Contract>, name: string) {
    exists i :: 0 <= i < |versions| && Carries(versions[i], name)
  }

  lemma {:induction false} FrontOrLastCarries(front: seq<Contract>, last: Contract, name: string)
    ensures SomeCarries(front + [last], name) <==> SomeCarries(front, name) || Carries(last, name)
  {
    var versions := front + [last];
    if SomeCarries(front, name) {
      var i :| 0 <= i < |front| && Carries(front[i], name);
      assert Carries(versions[i], name);
    }
    assert versions[|front|] == last;
    if SomeCarries(versions, name) && !Carries(last, name) {
      var i :| 0 <= i < |versions| && Carries(versions[i], name);
      assert Carries(front[i], name);
    }
  }

  /** The union's names are exactly those some version carries. */
  lemma {:induction false} UnionHoldsEveryColumn(versions: seq<Contract>, name: string)
    ensures name in AllNames(versions) <==> SomeCarries(versions, name)
  {
    if versions != [] {
      var front, last := versions[..|versions| - 1], versions[|versions| - 1];
      UnionHoldsEveryColumn(front, name);
      NamesHold(last.columns, name);
      FrontOrLastCarries(front, last, name);
      assert versions == front + [last];
    }
  }

  // ---------------------------------------------------------------- the model's columns

  datatype BronzeColumn = BronzeColumn(name: string, dataType: string, classification: string)

  const KEY_COLUMNS := ["_object_batch_id", "_object_ingest_date", "batch_id", "ingest_date"]

  /** The column as the latest version carrying it declares it. */
  function Latest(versions: seq<Contract>, name: string): (c: Option<Column>)
    ensures c.Some? ==> c.value.name == name
  {
    if versions == [] then None
    else if Carries(versions[|versions| - 1], name) then Some(Declared(versions[|versions| - 1].columns, name))
    else Latest(versions[..|versions| - 1], name)
  }

  /** It is a column of some version, and no later version carries the name. */
  lemma {:induction false} LatestIsLatest(versions: seq<Contract>, name: string) returns (i: nat)
    requires name in AllNames(versions)
    ensures i < |versions| && (forall k :: i < k < |versions| ==> !Carries(versions[k], name))
    ensures Latest(versions, name).Some? && Latest(versions, name).value in versions[i].columns
  {
    var n := |versions| - 1;
    UnionHoldsEveryColumn(versions, name);
    if Carries(versions[n], name) {
      i := n;
    } else {
      var k :| 0 <= k < |versions| && Carries(versions[k], name);
      assert Carries(versions[..n][k], name);
      UnionHoldsEveryColumn(versions[..n], name);
      i := LatestIsLatest(versions[..n], name);
    }
  }

  function Declared(columns: seq<Column>, name: string): (c: Column)
    requires exists i :: 0 <= i < |columns| && columns[i].name == name
    ensures c in columns && c.name == name
  {
    if columns[0].name == name then columns[0]
    else
      assert exists i :: 0 <= i < |columns[1..]| && columns[1..][i].name == name by {
        var i :| 0 <= i < |columns| && columns[i].name == name;
        assert columns[1..][i - 1].name == name;
      }
      Declared(columns[1..], name)
  }

  /** An identifier holds a token, whatever its declared type. */
  function Typed(c: Column, cast: string -> string): BronzeColumn {
    BronzeColumn(c.name, if c.classification == "identifier" then "VARCHAR" else cast(c.dataType), c.classification)
  }

  /** One column for each name of the union, typed and classed by the latest version carrying it; refused exactly
      when a name collides with a key column. */
  method BuildColumns(versions: seq<Contract>, cast: string -> string) returns (r: Result<seq<BronzeColumn>>)
    ensures r.Ok? <==> forall name :: name in AllNames(versions) ==> name !in KEY_COLUMNS
    ensures r.Ok? ==> |r.value| == |Firsts(AllNames(versions))|
    ensures r.Ok? ==> forall i :: 0 <= i < |r.value| ==>
              var name := Firsts(AllNames(versions))[i];
              Latest(versions, name).Some? && r.value[i] == Typed(Latest(versions, name).value, cast)
                && r.value[i].name == name && r.value[i].classification == Latest(versions, name).value.classification
                && (r.value[i].classification == "identifier" ==> r.value[i].dataType == "VARCHAR")
                && (r.value[i].classification != "identifier" ==>
                      r.value[i].dataType == cast(Latest(versions, name).value.dataType))
  {
    var order := Union(versions);
    var columns: seq<BronzeColumn> := [];
    FirstsAreTheUnion(AllNames(versions));
    for n := 0 to |order|
      invariant |columns| == n
      invariant forall i :: 0 <= i < n ==> order[i] !in KEY_COLUMNS
      invariant forall i :: 0 <= i < n ==>
                  Latest(versions, order[i]).Some? && columns[i] == Typed(Latest(versions, order[i]).value, cast)
    {
      var name := order[n];
      assert name in order;
      if name in KEY_COLUMNS {
        return Refused("collides with a key column");
      }
      var _ := LatestIsLatest(versions, name);
      columns := columns + [Typed(Latest(versions, name).value, cast)];
    }
    return Ok(columns);
  }

  // ---------------------------------------------------------------- when a column is delivered

  /** The delivery days a description calls null: before the first day, and from the second one on. */
  datatype Span = Span(addedFrom: Option<int>, retiredFrom: Option<int>) {
    predicate CallsNull(day: int) {
      (addedFrom.Some? && day < addedFrom.value) || (retiredFrom.Some? && day >= retiredFrom.value)
    }
  }

  function FirstCarrier(versions: seq<Contract>, name: string): (i: nat)
    ensures i <= |versions|
    ensures forall k :: 0 <= k < i ==> !Carries(versions[k], name)
    ensures i < |versions| ==> Carries(versions[i], name)
  {
    if versions == [] then 0
    else
      var i := FirstCarrier(versions[..|versions| - 1], name);
      if i < |versions| - 1 || Carries(versions[|versions| - 1], name) then i else i + 1
  }

  /** One past the last version carrying the column. */
  function AfterLastCarrier(versions: seq<Contract>, name: string): (i: nat)
    ensures i <= |versions|
    ensures forall k :: i <= k < |versions| ==> !Carries(versions[k], name)
    ensures i > 0 ==> Carries(versions[i - 1], name)
  {
    if versions == [] then 0
    else if Carries(versions[|versions| - 1], name) then |versions|
    else AfterLastCarrier(versions[..|versions| - 1], name)
  }

  function SpanOf(versions: seq<Contract>, name: string): Span {
    var first, after := FirstCarrier(versions, name), AfterLastCarrier(versions, name);
    if after == 0 || forall i :: 0 <= i < |versions| ==> Carries(versions[i], name) then Span(None, None)
    else
      Span(if first > 0 then versions[first].starts else None,
           if after < |versions| then versions[after].starts else None)
  }

  ghost predicate Contiguous(versions: seq<Contract>, name: string) {
    forall i, k, j :: 0 <= i < k < j < |versions| && Carries(versions[i], name) && Carries(versions[j], name) ==>
      Carries(versions[k], name)
  }

  lemma {:induction false} ChosenAt(versions: seq<Contract>, day: int) returns (i: nat)
    requires Chain(versions) && Chosen(versions, day).Some?
    ensures i < |versions| && Holds(versions, i, day) && Chosen(versions, day).value == versions[i]
  {
    ChosenIsAmong(versions, day);
    i :| i < |versions| && versions[i] == Chosen(versions, day).value;
    ChosenIsTheOneThatHolds(versions, day, i);
  }

  /** A later version takes over later, so a version that is not in force yet means none after it is. */
  lemma {:induction false} PlaceOfDay(versions: seq<Contract>, i: nat, k: nat, day: int)
    requires Chain(versions) && i < |versions| && k < |versions| && Holds(versions, i, day)
    ensures versions[k].StartedBy(day) <==> k <= i
  {
    if k <= i {
      StartsAscend(versions, k, i, day);
    } else if versions[k].StartedBy(day) {
      StartsAscend(versions, i + 1, k, day);
    }
  }

  /** A day the description calls null is one whose version is without the column. */
  lemma {:induction false} SpanIsSound(versions: seq<Contract>, name: string, day: int)
    requires Chain(versions) && Chosen(versions, day).Some? && SpanOf(versions, name).CallsNull(day)
    ensures !Carries(Chosen(versions, day).value, name)
  {
    var i := ChosenAt(versions, day);
    var first, after := FirstCarrier(versions, name), AfterLastCarrier(versions, name);
    if first < |versions| {
      PlaceOfDay(versions, i, first, day);
    }
    if after < |versions| {
      PlaceOfDay(versions, i, after, day);
    }
  }

  /** It names every such day exactly when the versions carrying the column are contiguous. */
  lemma {:induction false} SpanIsCompleteWhenContiguous(versions: seq<Contract>, name: string)
    requires Chain(versions) && exists i :: 0 <= i < |versions| && Carries(versions[i], name)
    ensures (forall day :: Chosen(versions, day).Some? && !Carries(Chosen(versions, day).value, name) ==>
               SpanOf(versions, name).CallsNull(day))
            <==> Contiguous(versions, name)
  {
    if Contiguous(versions, name) {
      forall day | Chosen(versions, day).Some? && !Carries(Chosen(versions, day).value, name)
        ensures SpanOf(versions, name).CallsNull(day)
      {
        EveryNullDayIsCalled(versions, name, day);
      }
    } else {
      var i, k, j :| 0 <= i < k < j < |versions| && Carries(versions[i], name) && Carries(versions[j], name)
                     && !Carries(versions[k], name);
      AGapIsNotCalled(versions, name, i, k, j);
    }
  }

  lemma {:induction false} EveryNullDayIsCalled(versions: seq<Contract>, name: string, day: int)
    requires Chain(versions) && Contiguous(versions, name)
             && exists i :: 0 <= i < |versions| && Carries(versions[i], name)
    requires Chosen(versions, day).Some? && !Carries(Chosen(versions, day).value, name)
    ensures SpanOf(versions, name).CallsNull(day)
  {
    var i := ChosenAt(versions, day);
    var first, after := FirstCarrier(versions, name), AfterLastCarrier(versions, name);
    assert first < |versions| && after > 0;
    if i < first {
      PlaceOfDay(versions, i, first, day);
    } else {
      assert i >= after;
      PlaceOfDay(versions, i, after, day);
      assert TakesOver(versions[after - 1], versions[after]);
    }
  }

  lemma {:induction false} AGapIsNotCalled(versions: seq<Contract>, name: string, i: nat, k: nat, j: nat)
    requires Chain(versions) && i < k < j < |versions|
    requires Carries(versions[i], name) && Carries(versions[j], name) && !Carries(versions[k], name)
    ensures exists day :: Chosen(versions, day) == Some(versions[k]) && !SpanOf(versions, name).CallsNull(day)
  {
    assert TakesOver(versions[k - 1], versions[k]) && TakesOver(versions[k], versions[k + 1]);
    var day := versions[k].starts.value;
    assert Holds(versions, k, day);
    ChosenIsTheOneThatHolds(versions, day, k);
    var first, after := FirstCarrier(versions, name), AfterLastCarrier(versions, name);
    assert first <= i && after > j;
    PlaceOfDay(versions, k, first, day);
    if after < |versions| {
      PlaceOfDay(versions, k, after, day);
    }
  }
}
