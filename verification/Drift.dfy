/** Scripted schema drift: which events a tick fires, the live schema against the documented one, and undoing it. */
module Drift {
  import opened Rows

  datatype Key = Key(schema: string, table: string, column: string)

  datatype Column = Column(key: Key, dataType: string, classification: string)

  /** The types of the columns the database has. */
  type Schema = map<Key, string>

  datatype Ddl =
    | AddIfMissing(key: Key, dataType: string)
    | DropIfPresent(key: Key)
    | SetType(key: Key, dataType: string)

  /** Executes one statement; altering a column that is not there is an error. */
  function Exec(live: Schema, ddl: Ddl): Result<Schema> {
    match ddl
    case AddIfMissing(key, dataType) => Ok(if key in live then live else live[key := dataType])
    case DropIfPresent(key) => Ok(live - {key})
    case SetType(key, dataType) => if key in live then Ok(live[key := dataType]) else Refused("no such column")
  }

  /** One scripted change, as one object: what it does to the database, how it is undone, and what it does to the
      documented schema. `back` is the type the revert statement restores. */
  datatype DriftEvent =
    | ColumnAdded(name: string, offset: int, added: Column)
    | TypeWidened(name: string, offset: int, target: Key, to: string, back: string)
  {
    function Target(): Key {
      if ColumnAdded? then added.key else target
    }

    function Apply(): Ddl {
      if ColumnAdded? then AddIfMissing(added.key, added.dataType) else SetType(target, to)
    }

    function Revert(): Ddl {
      if ColumnAdded? then DropIfPresent(added.key) else SetType(target, back)
    }

    /** Undoing the event right after it gives back the schema it met. */
    predicate ReversalMatches(live: Schema) {
      var applied := Exec(live, Apply());
      applied.Ok? && Exec(applied.value, Revert()) == Ok(live)
    }
  }

  ghost predicate DistinctNames(timeline: seq<DriftEvent>) {
    forall i, j :: 0 <= i < j < |timeline| ==> timeline[i].name != timeline[j].name
  }

  function EventByName(timeline: seq<DriftEvent>, name: string): (e: Option<DriftEvent>)
    ensures e.Some? ==> e.value in timeline && e.value.name == name
    ensures e.None? <==> forall i :: 0 <= i < |timeline| ==> timeline[i].name != name
  {
    if timeline == [] then None
    else if timeline[0].name == name then Some(timeline[0])
    else EventByName(timeline[1..], name)
  }

  lemma {:induction false} NamedOnce(timeline: seq<DriftEvent>, e: DriftEvent)
    requires DistinctNames(timeline) && e in timeline
    ensures EventByName(timeline, e.name) == Some(e)
  {
    var found := EventByName(timeline, e.name).value;
    var i :| 0 <= i < |timeline| && timeline[i] == e;
    var j :| 0 <= j < |timeline| && timeline[j] == found;
    assert i == j;
  }

  /** Matching is a fact about the schema an event meets: an added column must be new, a widened one must have the
      type the revert statement restores. */
  lemma {:induction false} MatchesExactly(e: DriftEvent, live: Schema)
    ensures e.ReversalMatches(live)
            <==> if e.ColumnAdded? then e.added.key !in live else e.target in live && live[e.target] == e.back
  {
    var applied := Exec(live, e.Apply());
    if e.ColumnAdded? {
      if e.added.key in live {
        assert e.added.key !in Exec(applied.value, e.Revert()).value;
      } else {
        assert applied.value - {e.added.key} == live;
      }
    } else if e.target in live {
      assert Exec(applied.value, e.Revert()).value[e.target] == e.back;
      if live[e.target] == e.back {
        assert live[e.target := e.to][e.target := e.back] == live;
      }
    }
  }

  // ---------------------------------------------------------------- what a tick fires

  predicate Due(e: DriftEvent, anchor: int, date: int) {
    anchor + e.offset <= date
  }

  /** Events whose date has arrived and which have not fired yet, in timeline order. */
  function DueEvents(timeline: seq<DriftEvent>, anchor: int, date: int, already: set<string>): (due: seq<DriftEvent>)
    ensures forall e :: e in due <==> e in timeline && e.name !in already && Due(e, anchor, date)
  {
    if timeline == [] then []
    else
      var rest := DueEvents(timeline[1..], anchor, date, already);
      if timeline[0].name !in already && Due(timeline[0], anchor, date) then [timeline[0]] + rest else rest
  }

  /** An event fires at the first tick whose date is its offset from the anchor or later. */
  lemma {:induction false} EventsFireFromTheirDay(
    timeline: seq<DriftEvent>, anchor: int, date: int, already: set<string>, e: DriftEvent)
    ensures e in DueEvents(timeline, anchor, date, already)
            <==> e in timeline && e.name !in already && date - anchor >= e.offset
  {
  }

  function NamesOf(events: seq<DriftEvent>): (names: seq<string>)
    ensures |names| == |events| && forall i :: 0 <= i < |events| ==> names[i] == events[i].name
  {
    if events == [] then [] else NamesOf(events[..|events| - 1]) + [events[|events| - 1].name]
  }

  /** Every event applied in turn; the first that fails fails them all. */
  function ApplyAll(live: Schema, events: seq<DriftEvent>): Result<Schema> {
    if events == [] then Ok(live)
    else
      var before := ApplyAll(live, events[..|events| - 1]);
      if before.Refused? then before else Exec(before.value, events[|events| - 1].Apply())
  }

  datatype State = State(live: Schema, log: seq<string>)

  function Fired(s: State): set<string> {
    set name | name in s.log
  }

  /** A tick is one transaction: it fires every due event and logs them all, or nothing happens. */
  function Ticked(timeline: seq<DriftEvent>, anchor: int, s: State, date: int): Result<State> {
    var due := DueEvents(timeline, anchor, date, Fired(s));
    var live := ApplyAll(s.live, due);
    if live.Refused? then Refused(live.reason) else Ok(State(live.value, s.log + NamesOf(due)))
  }

  class Source {
    var live: Schema
    var log: seq<string>

    constructor (documented: Schema)
      ensures View() == State(documented, [])
    {
      live, log := documented, [];
    }

    function View(): State
      reads this
    {
      State(live, log)
    }

    /** The drift phase of one tick. The statements run one by one; the log rows follow them in the same
        transaction, so a statement that fails takes the whole tick back. */
    method Tick(timeline: seq<DriftEvent>, anchor: int, date: int) returns (r: Result<seq<string>>)
      modifies this
      ensures r.Ok? <==> Ticked(timeline, anchor, old(View()), date).Ok?
      ensures View() == if r.Ok? then Ticked(timeline, anchor, old(View()), date).value else old(View())
      ensures r.Ok? ==> log == old(log) + r.value
    {
      var before := live;
      var due := DueEvents(timeline, anchor, date, set name | name in log);
      var fired: seq<string> := [];
      for i := 0 to |due|
        invariant ApplyAll(before, due[..i]) == Ok(live)
        invariant fired == NamesOf(due[..i]) && log == old(log)
      {
        NextApplied(before, due, i);
        var done := Exec(live, due[i].Apply());
        if done.Refused? {
          StaysRefused(before, due, i + 1);
          live := before;
          return Refused(done.reason);
        }
        live := done.value;
        fired := fired + [due[i].name];
      }
      assert due[..|due|] == due;
      log := log + fired;
      return Ok(fired);
    }

    /** Undoes every fired event, newest first. */
    method RevertAll(timeline: seq<DriftEvent>, fired: seq<string>) returns (r: Result<seq<string>>)
      modifies this`live
      ensures r.Ok? <==> Reverted(timeline, old(live), fired).Ok?
      ensures r.Ok? ==> Reverted(timeline, old(live), fired) == Ok(live) && r.value == Known(timeline, fired)
    {
      var undone: seq<string> := [];
      var n := |fired|;
      assert fired[..n] == fired;
      while n > 0
        invariant 0 <= n <= |fired|
        invariant Reverted(timeline, live, fired[..n]) == Reverted(timeline, old(live), fired)
        invariant undone + Known(timeline, fired[..n]) == Known(timeline, fired)
        decreases n
      {
        n := n - 1;
        NextKnown(timeline, fired, n, undone);
        var event := EventByName(timeline, fired[n]);
        if event.Some? {
          var done := Exec(live, event.value.Revert());
          if done.Refused? {
            return Refused(done.reason);
          }
          live := done.value;
          undone := undone + [fired[n]];
        }
      }
      return Ok(undone);
    }
  }

  lemma {:induction false} NextKnown(timeline: seq<DriftEvent>, fired: seq<string>, n: nat, undone: seq<string>)
    requires n < |fired|
    ensures fired[..n + 1][..n] == fired[..n] && fired[..n + 1][n] == fired[n]
    ensures undone + Known(timeline, fired[..n + 1])
         == (if EventByName(timeline, fired[n]).Some? then undone + [fired[n]] else undone)
            + Known(timeline, fired[..n])
  {
    assert fired[..n + 1][..n] == fired[..n] && fired[..n + 1][n] == fired[n];
  }

  lemma {:induction false} NextApplied(live: Schema, events: seq<DriftEvent>, i: nat)
    requires i < |events| && ApplyAll(live, events[..i]).Ok?
    ensures ApplyAll(live, events[..i + 1]) == Exec(ApplyAll(live, events[..i]).value, events[i].Apply())
    ensures NamesOf(events[..i + 1]) == NamesOf(events[..i]) + [events[i].name]
  {
    assert events[..i + 1][..i] == events[..i] && events[..i + 1][i] == events[i];
  }

  lemma {:induction false} StaysRefused(live: Schema, events: seq<DriftEvent>, n: nat)
    requires n <= |events| && ApplyAll(live, events[..n]).Refused?
    ensures ApplyAll(live, events).Refused?
    decreases |events|
  {
    if n < |events| {
      assert events[..|events| - 1][..n] == events[..n];
      StaysRefused(live, events[..|events| - 1], n);
    } else {
      assert events[..n] == events;
    }
  }

  function Reverted(timeline: seq<DriftEvent>, live: Schema, fired: seq<string>): Result<Schema>
    decreases |fired|
  {
    if fired == [] then Ok(live)
    else
      var front, event := fired[..|fired| - 1], EventByName(timeline, fired[|fired| - 1]);
      if event.None? then Reverted(timeline, live, front)
      else
        var undone := Exec(live, event.value.Revert());
        if undone.Refused? then undone else Reverted(timeline, undone.value, front)
  }

  /** The fired names the timeline knows, newest first. */
  function Known(timeline: seq<DriftEvent>, fired: seq<string>): seq<string> {
    if fired == [] then []
    else
      var last := fired[|fired| - 1];
      (if EventByName(timeline, last).Some? then [last] else []) + Known(timeline, fired[..|fired| - 1])
  }

  // ---------------------------------------------------------------- the documented schema

  function SchemaOf(columns: seq<Column>): Schema {
    if columns == [] then map[]
    else SchemaOf(columns[..|columns| - 1])[columns[|columns| - 1].key := columns[|columns| - 1].dataType]
  }

  function Retyped(columns: seq<Column>, key: Key, dataType: string): seq<Column> {
    if columns == [] then []
    else
      var last := columns[|columns| - 1];
      Retyped(columns[..|columns| - 1], key, dataType) + [if last.key == key then last.(dataType := dataType) else last]
  }

  function Delta(columns: seq<Column>, e: DriftEvent): seq<Column> {
    if e.ColumnAdded? then columns + [e.added] else Retyped(columns, e.target, e.to)
  }

  /** A widening changes the documented type of its own column and nothing else; an added column comes last. */
  lemma {:induction false} DeltaChangesOneColumn(columns: seq<Column>, e: DriftEvent)
    ensures e.ColumnAdded? ==> Delta(columns, e) == columns + [e.added]
    ensures e.TypeWidened? ==> |Delta(columns, e)| == |columns|
    ensures e.TypeWidened? ==> forall i :: 0 <= i < |columns| ==>
              && Delta(columns, e)[i].key == columns[i].key
              && Delta(columns, e)[i].classification == columns[i].classification
              && Delta(columns, e)[i].dataType == if columns[i].key == e.target then e.to else columns[i].dataType
  {
    if e.TypeWidened? {
      RetypedChangesOneColumn(columns, e.target, e.to);
    }
  }

  lemma {:induction false} RetypedChangesOneColumn(columns: seq<Column>, key: Key, dataType: string)
    ensures |Retyped(columns, key, dataType)| == |columns|
    ensures forall i :: 0 <= i < |columns| ==>
              && Retyped(columns, key, dataType)[i].key == columns[i].key
              && Retyped(columns, key, dataType)[i].classification == columns[i].classification
              && Retyped(columns, key, dataType)[i].dataType
                 == if columns[i].key == key then dataType else columns[i].dataType
  {
    if columns != [] {
      RetypedChangesOneColumn(columns[..|columns| - 1], key, dataType);
    }
  }

  /** The committed dictionary plus the deltas of what has fired, in the log's order. */
  function Deltas(timeline: seq<DriftEvent>, documented: seq<Column>, fired: seq<string>): seq<Column> {
    if fired == [] then documented
    else
      var before := Deltas(timeline, documented, fired[..|fired| - 1]);
      var event := EventByName(timeline, fired[|fired| - 1]);
      if event.None? then before else Delta(before, event.value)
  }

  method ApplyDeltas(
    timeline: seq<DriftEvent>, documented: seq<Column>, fired: seq<string>) returns (columns: seq<Column>)
    ensures columns == Deltas(timeline, documented, fired)
  {
    columns := documented;
    for i := 0 to |fired|
      invariant columns == Deltas(timeline, documented, fired[..i])
    {
      assert fired[..i + 1][..i] == fired[..i] && fired[..i + 1][i] == fired[i];
      var event := EventByName(timeline, fired[i]);
      if event.Some? {
        columns := Delta(columns, event.value);
      }
    }
    assert fired[..|fired|] == fired;
  }

  lemma {:induction false} RetypedSchema(columns: seq<Column>, key: Key, dataType: string)
    ensures SchemaOf(Retyped(columns, key, dataType))
         == if key in SchemaOf(columns) then SchemaOf(columns)[key := dataType] else SchemaOf(columns)
  {
    if columns != [] {
      var n := |columns| - 1;
      RetypedSchema(columns[..n], key, dataType);
      var retyped := Retyped(columns, key, dataType);
      assert retyped[..|retyped| - 1] == Retyped(columns[..n], key, dataType);
    }
  }

  /** The event moves the database and the documentation by the same amount. */
  lemma {:induction false} DeltaIsApplied(columns: seq<Column>, e: DriftEvent)
    requires e.ReversalMatches(SchemaOf(columns))
    ensures Exec(SchemaOf(columns), e.Apply()) == Ok(SchemaOf(Delta(columns, e)))
  {
    MatchesExactly(e, SchemaOf(columns));
    if e.ColumnAdded? {
      assert (columns + [e.added])[..|columns|] == columns;
    } else {
      RetypedSchema(columns, e.target, e.to);
    }
  }

  // ---------------------------------------------------------------- any run of ticks

  /** Along a log, every event meets a schema its reversal matches. */
  ghost predicate MatchesAlong(timeline: seq<DriftEvent>, documented: seq<Column>, log: seq<string>) {
    log == [] ||
    var front, event := log[..|log| - 1], EventByName(timeline, log[|log| - 1]);
    MatchesAlong(timeline, documented, front)
    && event.Some? && event.value.ReversalMatches(SchemaOf(Deltas(timeline, documented, front)))
  }

  /** Undoing newest first gives back the dictionary's schema. */
  lemma {:induction false} RevertingGivesBackTheDictionary(
    timeline: seq<DriftEvent>, documented: seq<Column>, log: seq<string>)
    requires MatchesAlong(timeline, documented, log)
    ensures Reverted(timeline, SchemaOf(Deltas(timeline, documented, log)), log) == Ok(SchemaOf(documented))
  {
    if log != [] {
      var front, event := log[..|log| - 1], EventByName(timeline, log[|log| - 1]).value;
      DeltaIsApplied(Deltas(timeline, documented, front), event);
      RevertingGivesBackTheDictionary(timeline, documented, front);
    }
  }

  lemma {:induction false} NextMatches(
    timeline: seq<DriftEvent>, documented: seq<Column>, log: seq<string>, e: DriftEvent)
    requires MatchesAlong(timeline, documented, log) && EventByName(timeline, e.name) == Some(e)
    requires e.ReversalMatches(SchemaOf(Deltas(timeline, documented, log)))
    ensures MatchesAlong(timeline, documented, log + [e.name])
    ensures Exec(SchemaOf(Deltas(timeline, documented, log)), e.Apply())
         == Ok(SchemaOf(Deltas(timeline, documented, log + [e.name])))
  {
    assert (log + [e.name])[..|log|] == log;
    DeltaIsApplied(Deltas(timeline, documented, log), e);
  }
}
