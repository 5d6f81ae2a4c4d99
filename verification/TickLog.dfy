/** The tick log as a control total: what a tick counts, against the rows stamped inside its day's window. */
module TickLog {
  import opened Rows

  /** The operation classes a tick counts, and any other name a caller might pass. */
  datatype Class = Inserted | Updated | SoftDeleted | LateArriving | Deleted | Unknown(name: string)

  const CLASSES := [Inserted, Updated, SoftDeleted, LateArriving, Deleted]

  /** What a tick has counted so far. */
  datatype Report = Report(
    counts: map<string, map<Class, int>>, updatedKeys: map<string, set<int>>,
    softDeletedKeys: map<string, set<int>>, deletedKeys: seq<(string, int)>)
  {
    function Count(table: string, klass: Class): int {
      if table in counts && klass in counts[table] then counts[table][klass] else 0
    }

    function Updated(table: string): set<int> {
      if table in updatedKeys then updatedKeys[table] else {}
    }

    function SoftDeleted(table: string): set<int> {
      if table in softDeletedKeys then softDeletedKeys[table] else {}
    }

    function Set(table: string, klass: Class, count: int): Report {
      var classes := if table in counts then counts[table] else map[];
      this.(counts := counts[table := classes[klass := count]])
    }
  }

  function Keys(keys: seq<int>): set<int> {
    set k | k in keys
  }

  function Recorded(r: Report, table: string, klass: Class, count: int): Report {
    if count == 0 then r else r.Set(table, klass, r.Count(table, klass) + count)
  }

  /** Updates are counted by key, so a row two phases touch is counted once. */
  function Touched(r: Report, table: string, keys: set<int>): Report {
    var seen := r.Updated(table) + keys;
    r.(updatedKeys := r.updatedKeys[table := seen]).Set(table, Updated, |seen|)
  }

  function SoftTouched(r: Report, table: string, keys: set<int>): Report {
    var gone := r.SoftDeleted(table) + keys;
    r.(softDeletedKeys := r.softDeletedKeys[table := gone]).Set(table, SoftDeleted, |gone|)
  }

  function RecordedUpdate(r: Report, table: string, keys: seq<int>, softDelete: bool): Report {
    if keys == [] then r
    else if softDelete then SoftTouched(Touched(r, table, Keys(keys)), table, Keys(keys))
    else Touched(r, table, Keys(keys))
  }

  function RecordedDelete(r: Report, table: string, key: int): Report {
    var r1 := Recorded(r, table, Deleted, 1);
    r1.(deletedKeys := r1.deletedKeys + [(table, key)])
  }

  class TickReport {
    var counts: map<string, map<Class, int>>
    var updatedKeys: map<string, set<int>>
    var softDeletedKeys: map<string, set<int>>
    var deletedKeys: seq<(string, int)>

    constructor ()
      ensures View() == Report(map[], map[], map[], [])
    {
      counts, updatedKeys, softDeletedKeys, deletedKeys := map[], map[], map[], [];
    }

    function View(): Report
      reads this
    {
      Report(counts, updatedKeys, softDeletedKeys, deletedKeys)
    }

    method Record(table: string, klass: Class, count: int) returns (r: Result<()>)
      modifies this`counts
      ensures r.Ok? <==> klass in CLASSES
      ensures View() == if r.Ok? then Recorded(old(View()), table, klass, count) else old(View())
    {
      if klass !in CLASSES {
        return Refused("unknown operation class");
      }
      if count != 0 {
        var classes := if table in counts then counts[table] else map[];
        var before := if klass in classes then classes[klass] else 0;
        counts := counts[table := classes[klass := before + count]];
      }
      return Ok(());
    }

    /** Returns how many of the keys were new to this tick. */
    method RecordUpdate(table: string, keys: seq<int>, softDelete: bool) returns (fresh_: int)
      modifies this`counts, this`updatedKeys, this`softDeletedKeys
      ensures View() == RecordedUpdate(old(View()), table, keys, softDelete)
      ensures fresh_ == |View().Updated(table)| - |old(View()).Updated(table)|
    {
      if keys == [] {
        return 0;
      }
      var seen := if table in updatedKeys then updatedKeys[table] else {};
      var before := |seen|;
      seen := seen + Keys(keys);
      updatedKeys := updatedKeys[table := seen];
      var classes := if table in counts then counts[table] else map[];
      counts := counts[table := classes[Updated := |seen|]];
      if softDelete {
        var gone := (if table in softDeletedKeys then softDeletedKeys[table] else {}) + Keys(keys);
        softDeletedKeys := softDeletedKeys[table := gone];
        counts := counts[table := counts[table][SoftDeleted := |gone|]];
      }
      return |seen| - before;
    }

    method RecordDelete(table: string, key: int)
      modifies this`counts, this`deletedKeys
      ensures View() == RecordedDelete(old(View()), table, key)
    {
      var _ := Record(table, Deleted, 1);
      deletedKeys := deletedKeys + [(table, key)];
    }
  }

  // ---------------------------------------------------------------- a tick over the tables

  /** Every table's rows, as the day each key was last stamped with. */
  type Tables = map<string, map<int, int>>

  /** What a phase does to a row; a late insert's business timestamp is earlier than the tick's date. */
  datatype Op =
    | Insert(table: string, key: int, late: bool)
    | Update(table: string, keys: seq<int>, soft: bool)
    | Delete(table: string, key: int)

  function Stamps(rows: Tables, table: string): map<int, int> {
    if table in rows then rows[table] else map[]
  }

  function Stamped(stamps: map<int, int>, keys: set<int>, day: int): map<int, int> {
    stamps + map k | k in keys :: day
  }

  function Apply(rows: Tables, op: Op, day: int): Tables {
    var stamps := Stamps(rows, op.table);
    rows[op.table :=
      match op
      case Insert(_, key, _) => stamps[key := day]
      case Update(_, keys, _) => Stamped(stamps, Keys(keys), day)
      case Delete(_, key) => stamps - {key}]
  }

  function Counted(r: Report, op: Op): Report {
    match op
    case Insert(table, _, late) =>
      var inserted := Recorded(r, table, Inserted, 1);
      if late then Recorded(inserted, table, LateArriving, 1) else inserted
    case Update(table, keys, soft) => RecordedUpdate(r, table, keys, soft)
    case Delete(table, key) => RecordedDelete(r, table, key)
  }

  function Run(rows: Tables, ops: seq<Op>, day: int): Tables {
    if ops == [] then rows else Apply(Run(rows, ops[..|ops| - 1], day), ops[|ops| - 1], day)
  }

  function Log(ops: seq<Op>): Report {
    if ops == [] then Report(map[], map[], map[], []) else Counted(Log(ops[..|ops| - 1]), ops[|ops| - 1])
  }

  /** A tick inserts fresh keys, never one it deleted, and updates and deletes keys that exist. */
  predicate Legal(rows: Tables, ops: seq<Op>, day: int) {
    ops == [] ||
    var before, op := ops[..|ops| - 1], ops[|ops| - 1];
    var stamps := Stamps(Run(rows, before, day), op.table);
    && Legal(rows, before, day)
    && match op
       case Insert(_, key, _) => key !in stamps && key !in DeletedKeys(before, op.table)
       case Update(_, keys, _) => Keys(keys) <= stamps.Keys
       case Delete(_, key) => key in stamps
  }

  function InsertedKeys(ops: seq<Op>, table: string): set<int> {
    set i | 0 <= i < |ops| && ops[i].Insert? && ops[i].table == table :: ops[i].key
  }

  function LateKeys(ops: seq<Op>, table: string): set<int> {
    set i | 0 <= i < |ops| && ops[i].Insert? && ops[i].late && ops[i].table == table :: ops[i].key
  }

  function UpdatedKeys(ops: seq<Op>, table: string): set<int> {
    set i, k | 0 <= i < |ops| && ops[i].Update? && ops[i].table == table && k in ops[i].keys :: k
  }

  function SoftDeletedKeys(ops: seq<Op>, table: string): set<int> {
    set i, k | 0 <= i < |ops| && ops[i].Update? && ops[i].soft && ops[i].table == table && k in ops[i].keys :: k
  }

  function DeletedKeys(ops: seq<Op>, table: string): set<int> {
    set i | 0 <= i < |ops| && ops[i].Delete? && ops[i].table == table :: ops[i].key
  }

  /** The keys stamped inside a day's window. */
  function Window(rows: Tables, table: string, day: int): set<int> {
    set k | k in Stamps(rows, table) && Stamps(rows, table)[k] == day
  }

  lemma {:induction false} StepSets(ops: seq<Op>, table: string)
    requires ops != []
    ensures var front, op := ops[..|ops| - 1], ops[|ops| - 1];
            && InsertedKeys(ops, table)
              == InsertedKeys(front, table) + (if op.Insert? && op.table == table then {op.key} else {})
            && UpdatedKeys(ops, table)
              == UpdatedKeys(front, table) + (if op.Update? && op.table == table then Keys(op.keys) else {})
            && SoftDeletedKeys(ops, table)
               == SoftDeletedKeys(front, table)
                 + (if op.Update? && op.soft && op.table == table then Keys(op.keys) else {})
            && DeletedKeys(ops, table)
              == DeletedKeys(front, table) + (if op.Delete? && op.table == table then {op.key} else {})
  {
    var front, op := ops[..|ops| - 1], ops[|ops| - 1];
    var last := |ops| - 1;
    forall k ensures k in UpdatedKeys(ops, table) <==>
                     k in UpdatedKeys(front, table) || (op.Update? && op.table == table && k in op.keys)
    {
      if op.Update? && op.table == table && k in op.keys {
        assert ops[last].Update? && k in ops[last].keys;
      }
    }
    forall k ensures k in SoftDeletedKeys(ops, table) <==>
                     k in SoftDeletedKeys(front, table) || (op.Update? && op.soft && op.table == table && k in op.keys)
    {
      if op.Update? && op.soft && op.table == table && k in op.keys {
        assert ops[last].Update? && ops[last].soft && k in ops[last].keys;
      }
    }
  }

  /** Where the tick's keys are: every key it inserted is in the table or was deleted again by it. */
  lemma {:induction false} FreshKeys(rows: Tables, ops: seq<Op>, day: int, table: string)
    requires Legal(rows, ops, day)
    ensures InsertedKeys(ops, table) + UpdatedKeys(ops, table)
            <= Stamps(Run(rows, ops, day), table).Keys + DeletedKeys(ops, table)
    ensures DeletedKeys(ops, table) !! Stamps(Run(rows, ops, day), table).Keys
  {
    if ops != [] {
      var front := ops[..|ops| - 1];
      FreshKeys(rows, front, day, table);
      StepSets(ops, table);
    }
  }

  /** Setting one counter leaves every other counter alone. */
  lemma {:induction false} SetCounts(r: Report, t: string, klass: Class, count: int, table: string, other: Class)
    ensures r.Set(t, klass, count).Count(table, other)
         == if table == t && other == klass then count else r.Count(table, other)
  {
  }

  /** A counter kept by key is the size of its key set, and touching keys moves no other counter. */
  lemma {:induction false} TouchedCounts(r: Report, t: string, keys: set<int>, table: string, other: Class)
    ensures var after := Touched(r, t, keys);
            && after.Updated(table) == r.Updated(table) + (if table == t then keys else {})
            && after.SoftDeleted(table) == r.SoftDeleted(table)
            && after.Count(table, other)
               == if table == t && other == Updated then |after.Updated(table)| else r.Count(table, other)
  {
    var seen := r.Updated(t) + keys;
    SetCounts(r.(updatedKeys := r.updatedKeys[t := seen]), t, Updated, |seen|, table, other);
  }

  lemma {:induction false} SoftTouchedCounts(r: Report, t: string, keys: set<int>, table: string, other: Class)
    ensures var after := SoftTouched(r, t, keys);
            && after.Updated(table) == r.Updated(table)
            && after.SoftDeleted(table) == r.SoftDeleted(table) + (if table == t then keys else {})
            && after.Count(table, other)
               == if table == t && other == SoftDeleted then |after.SoftDeleted(table)| else r.Count(table, other)
  {
    var gone := r.SoftDeleted(t) + keys;
    SetCounts(r.(softDeletedKeys := r.softDeletedKeys[t := gone]), t, SoftDeleted, |gone|, table, other);
  }

  /** An insert is counted once, and once more as a late arrival when it is one. */
  lemma {:induction false} InsertCounts(r: Report, t: string, key: int, late: bool, table: string, other: Class)
    ensures Counted(r, Insert(t, key, late)).Count(table, other)
         == r.Count(table, other)
            + if table == t && (other == Inserted || (late && other == LateArriving)) then 1 else 0
  {
    var inserted := r.Set(t, Inserted, r.Count(t, Inserted) + 1);
    SetCounts(r, t, Inserted, r.Count(t, Inserted) + 1, table, other);
    SetCounts(r, t, Inserted, r.Count(t, Inserted) + 1, t, LateArriving);
    SetCounts(inserted, t, LateArriving, inserted.Count(t, LateArriving) + 1, table, other);
  }

  lemma {:induction false} DeleteCounts(r: Report, t: string, key: int, table: string, other: Class)
    ensures Counted(r, Delete(t, key)).Count(table, other)
         == r.Count(table, other) + if table == t && other == Deleted then 1 else 0
  {
    SetCounts(r, t, Deleted, r.Count(t, Deleted) + 1, table, other);
  }

  lemma {:induction false} UpdateCounts(r: Report, op: Op, table: string, other: Class)
    requires op.Update? && other != Updated && other != SoftDeleted
    ensures Counted(r, op).Count(table, other) == r.Count(table, other)
  {
    TouchedCounts(r, op.table, Keys(op.keys), table, other);
    SoftTouchedCounts(Touched(r, op.table, Keys(op.keys)), op.table, Keys(op.keys), table, other);
  }

  lemma {:induction false} UpdateKeys(r: Report, op: Op, table: string)
    requires op.Update?
    ensures var after := Counted(r, op);
            && after.Updated(table) == r.Updated(table) + (if op.table == table then Keys(op.keys) else {})
            && after.SoftDeleted(table)
               == r.SoftDeleted(table) + (if op.table == table && op.soft then Keys(op.keys) else {})
  {
    TouchedCounts(r, op.table, Keys(op.keys), table, Updated);
    SoftTouchedCounts(Touched(r, op.table, Keys(op.keys)), op.table, Keys(op.keys), table, Updated);
  }

  /** What one operation does to the key sets of any table. */
  lemma {:induction false} CountedKeys(r: Report, op: Op, table: string)
    ensures var after, here := Counted(r, op), op.table == table && op.Update?;
            && after.Updated(table) == r.Updated(table) + (if here then Keys(op.keys) else {})
            && after.SoftDeleted(table) == r.SoftDeleted(table) + (if here && op.soft then Keys(op.keys) else {})
  {
    if op.Update? {
      UpdateKeys(r, op, table);
    }
  }

  lemma {:induction false} CountedSizes(r: Report, op: Op, table: string)
    requires r.Count(table, Updated) == |r.Updated(table)| && r.Count(table, SoftDeleted) == |r.SoftDeleted(table)|
    ensures Counted(r, op).Count(table, Updated) == |Counted(r, op).Updated(table)|
    ensures Counted(r, op).Count(table, SoftDeleted) == |Counted(r, op).SoftDeleted(table)|
  {
    if op.Update? {
      var r1 := Touched(r, op.table, Keys(op.keys));
      TouchedCounts(r, op.table, Keys(op.keys), table, Updated);
      TouchedCounts(r, op.table, Keys(op.keys), table, SoftDeleted);
      SoftTouchedCounts(r1, op.table, Keys(op.keys), table, Updated);
      SoftTouchedCounts(r1, op.table, Keys(op.keys), table, SoftDeleted);
    } else if op.Insert? {
      InsertCounts(r, op.table, op.key, op.late, table, Updated);
      InsertCounts(r, op.table, op.key, op.late, table, SoftDeleted);
    } else {
      DeleteCounts(r, op.table, op.key, table, Updated);
      DeleteCounts(r, op.table, op.key, table, SoftDeleted);
    }
  }

  /** Inserts, late arrivals and deletes are counted one by one. */
  lemma {:induction false} CountedOnce(r: Report, op: Op, table: string)
    ensures var after, here := Counted(r, op), op.table == table;
            && after.Count(table, Inserted) == r.Count(table, Inserted) + (if here && op.Insert? then 1 else 0)
            && after.Count(table, LateArriving)
              == r.Count(table, LateArriving) + (if here && op.Insert? && op.late then 1 else 0)
            && after.Count(table, Deleted) == r.Count(table, Deleted) + (if here && op.Delete? then 1 else 0)
  {
    forall other | other in [Inserted, LateArriving, Deleted]
      ensures Counted(r, op).Count(table, other)
           == r.Count(table, other)
              + if op.table == table
                   && ((op.Insert? && (other == Inserted || (op.late && other == LateArriving)))
                       || (op.Delete? && other == Deleted))
                then 1 else 0
    {
      if op.Update? {
        UpdateCounts(r, op, table, other);
      } else if op.Insert? {
        InsertCounts(r, op.table, op.key, op.late, table, other);
      } else {
        DeleteCounts(r, op.table, op.key, table, other);
      }
    }
    assert Inserted in [Inserted, LateArriving, Deleted] && LateArriving in [Inserted, LateArriving, Deleted];
    assert Deleted in [Inserted, LateArriving, Deleted];
  }

  /** Inserts and deletes are counted by key: no key is counted twice. */
  lemma {:induction false} LogCountsOnce(rows: Tables, ops: seq<Op>, day: int, table: string)
    requires Legal(rows, ops, day)
    ensures Log(ops).Count(table, Inserted) == |InsertedKeys(ops, table)|
    ensures Log(ops).Count(table, Deleted) == |DeletedKeys(ops, table)|
  {
    if ops != [] {
      var front, op := ops[..|ops| - 1], ops[|ops| - 1];
      LogCountsOnce(rows, front, day, table);
      StepSets(ops, table);
      NewToTheTick(rows, ops, day);
      CountedOnce(Log(front), op, table);
    }
  }

  lemma {:induction false} StepLate(ops: seq<Op>, table: string)
    requires ops != []
    ensures var front, op := ops[..|ops| - 1], ops[|ops| - 1];
            LateKeys(ops, table)
            == LateKeys(front, table) + (if op.Insert? && op.late && op.table == table then {op.key} else {})
  {
  }

  /** Late arrivals are a subset of the inserts, by key and by count, however many a tick has. */
  lemma {:induction false} LateArrivalsAreInserts(rows: Tables, ops: seq<Op>, day: int, table: string)
    requires Legal(rows, ops, day)
    ensures LateKeys(ops, table) <= InsertedKeys(ops, table)
    ensures Log(ops).Count(table, LateArriving) == |LateKeys(ops, table)| <= Log(ops).Count(table, Inserted)
  {
    LogCountsOnce(rows, ops, day, table);
    LateIsCounted(rows, ops, day, table);
    assert InsertedKeys(ops, table) == LateKeys(ops, table) + (InsertedKeys(ops, table) - LateKeys(ops, table));
  }

  lemma {:induction false} LateIsCounted(rows: Tables, ops: seq<Op>, day: int, table: string)
    requires Legal(rows, ops, day)
    ensures LateKeys(ops, table) <= InsertedKeys(ops, table)
    ensures Log(ops).Count(table, LateArriving) == |LateKeys(ops, table)|
  {
    if ops != [] {
      var front, op := ops[..|ops| - 1], ops[|ops| - 1];
      LateIsCounted(rows, front, day, table);
      StepSets(ops, table);
      StepLate(ops, table);
      NewToTheTick(rows, ops, day);
      CountedOnce(Log(front), op, table);
    }
  }

  /** The key sets of the report are the keys updated and soft-deleted, and the counters are their sizes. */
  lemma {:induction false} LogKeepsKeys(ops: seq<Op>, table: string)
    ensures Log(ops).Updated(table) == UpdatedKeys(ops, table)
            && Log(ops).SoftDeleted(table) == SoftDeletedKeys(ops, table)
    ensures Log(ops).Count(table, Updated) == |Log(ops).Updated(table)|
    ensures Log(ops).Count(table, SoftDeleted) == |Log(ops).SoftDeleted(table)|
  {
    if ops != [] {
      var front, op := ops[..|ops| - 1], ops[|ops| - 1];
      LogKeepsKeys(front, table);
      StepSets(ops, table);
      CountedKeys(Log(front), op, table);
      CountedSizes(Log(front), op, table);
    }
  }

  /** The counters are the sizes of the key sets, and soft deletes are a subset of updates. */
  lemma {:induction false} LogCountsKeys(rows: Tables, ops: seq<Op>, day: int, table: string)
    requires Legal(rows, ops, day)
    ensures Log(ops).Count(table, Inserted) == |InsertedKeys(ops, table)|
    ensures Log(ops).Count(table, Updated) == |UpdatedKeys(ops, table)|
            && Log(ops).Updated(table) == UpdatedKeys(ops, table)
    ensures Log(ops).Count(table, Deleted) == |DeletedKeys(ops, table)|
    ensures Log(ops).Count(table, SoftDeleted) == |SoftDeletedKeys(ops, table)|
    ensures Log(ops).SoftDeleted(table) == SoftDeletedKeys(ops, table) <= UpdatedKeys(ops, table)
  {
    LogCountsOnce(rows, ops, day, table);
    LogKeepsKeys(ops, table);
  }

  /** No key is inserted twice or deleted twice by one tick. */
  lemma {:induction false} NewToTheTick(rows: Tables, ops: seq<Op>, day: int)
    requires ops != [] && Legal(rows, ops, day)
    ensures var front, op := ops[..|ops| - 1], ops[|ops| - 1];
            && (op.Insert? ==> op.key !in InsertedKeys(front, op.table))
            && (op.Delete? ==> op.key !in DeletedKeys(front, op.table))
  {
    FreshKeys(rows, ops[..|ops| - 1], day, ops[|ops| - 1].table);
  }

  /** What one operation does to any day's window of any table. */
  lemma {:induction false} ApplyWindow(rows: Tables, op: Op, day: int, table: string, seen: int)
    ensures var before, after := Window(rows, table, seen), Window(Apply(rows, op, day), table, seen);
            var touched := if op.Update? then Keys(op.keys) else {op.key};
            after == if op.table != table then before
                     else if op.Delete? || seen != day then before - touched
                     else before + touched
  {
    var stamps, after := Stamps(rows, table), Stamps(Apply(rows, op, day), table);
    if op.table != table {
      assert after == stamps;
    } else {
      var touched := if op.Update? then Keys(op.keys) else {op.key};
      assert after == if op.Delete? then stamps - touched else Stamped(stamps, touched, day);
    }
    WindowOf(rows, table, seen);
    WindowOf(Apply(rows, op, day), table, seen);
  }

  lemma {:induction false} WindowOf(rows: Tables, table: string, day: int)
    ensures forall k :: k in Window(rows, table, day) <==> k in Stamps(rows, table) && Stamps(rows, table)[k] == day
  {
  }

  /** After a tick on a day nothing was stamped with before, its window holds what it inserted or updated and did
      not delete. */
  lemma {:induction false} WindowIsWhatTheTickTouched(rows: Tables, ops: seq<Op>, day: int, table: string)
    requires Legal(rows, ops, day) && Window(rows, table, day) == {}
    ensures Window(Run(rows, ops, day), table, day)
         == InsertedKeys(ops, table) + UpdatedKeys(ops, table) - DeletedKeys(ops, table)
  {
    if ops != [] {
      var front := ops[..|ops| - 1];
      WindowIsWhatTheTickTouched(rows, front, day, table);
      StepSets(ops, table);
      FreshKeys(rows, front, day, table);
      ApplyWindow(Run(rows, front, day), ops[|ops| - 1], day, table, day);
    }
  }

  /** Logged inserts and updates exceed the rows in the window by exactly what was counted twice and what was
      deleted again, so the two agree if and only if the tick updated no row it inserted and deleted none it touched. */
  lemma {:induction false} LogAgainstWindow(rows: Tables, ops: seq<Op>, day: int, table: string)
    requires Legal(rows, ops, day) && Window(rows, table, day) == {}
    ensures var i, u, d := InsertedKeys(ops, table), UpdatedKeys(ops, table), DeletedKeys(ops, table);
            var logged := Log(ops).Count(table, Inserted) + Log(ops).Count(table, Updated);
            var inWindow := |Window(Run(rows, ops, day), table, day)|;
            && logged == inWindow + |i * u| + |(i + u) * d|
            && (logged == inWindow <==> i !! u && (i + u) !! d)
  {
    var i, u, d := InsertedKeys(ops, table), UpdatedKeys(ops, table), DeletedKeys(ops, table);
    LogCountsKeys(rows, ops, day, table);
    WindowIsWhatTheTickTouched(rows, ops, day, table);
    assert |i + u| == |i| + |u| - |i * u|;
    assert (i + u) == (i + u - d) + (i + u) * d;
    assert |i + u| == |i + u - d| + |(i + u) * d|;
  }

  lemma {:induction false} SizesWithOverlaps(i: set<int>, u: set<int>, d: set<int>)
    ensures |i| + |u| + |d| == |i + u + d| + |i * u| + |(i + u) * d|
  {
    assert |i + u| == |i| + |u| - |i * u|;
    assert |i + u + d| == |i + u| + |d| - |(i + u) * d|;
  }

  /** `rows_touched` counts each row once exactly when no row falls in two classes. */
  lemma {:induction false} RowsTouchedCountsOnce(rows: Tables, ops: seq<Op>, day: int, table: string)
    requires Legal(rows, ops, day)
    ensures var i, u, d := InsertedKeys(ops, table), UpdatedKeys(ops, table), DeletedKeys(ops, table);
            var touched :=
                Log(ops).Count(table, Inserted) + Log(ops).Count(table, Updated) + Log(ops).Count(table, Deleted);
            && touched == |i + u + d| + |i * u| + |(i + u) * d|
            && (touched == |i + u + d| <==> i * u == {} && (i + u) * d == {})
  {
    var i, u, d := InsertedKeys(ops, table), UpdatedKeys(ops, table), DeletedKeys(ops, table);
    LogCountsKeys(rows, ops, day, table);
    SizesWithOverlaps(i, u, d);
  }

  // ---------------------------------------------------------------- ticks in sequence

  /** Later ticks stamp only their own day: an earlier window can lose rows and never gains one. */
  lemma {:induction false} OtherDaysOnlyLose(rows: Tables, ops: seq<Op>, day: int, table: string, earlier: int)
    requires earlier != day
    ensures Window(Run(rows, ops, day), table, earlier) <= Window(rows, table, earlier)
  {
    if ops != [] {
      var front := ops[..|ops| - 1];
      OtherDaysOnlyLose(rows, front, day, table, earlier);
      ApplyWindow(Run(rows, front, day), ops[|ops| - 1], day, table, earlier);
    }
  }

  /** One tick a day, from the day after `start`. */
  function RunDays(rows: Tables, ticks: seq<seq<Op>>, start: int): Tables {
    if ticks == [] then rows
    else Run(RunDays(rows, ticks[..|ticks| - 1], start), ticks[|ticks| - 1], start + |ticks|)
  }

  predicate LegalDays(rows: Tables, ticks: seq<seq<Op>>, start: int) {
    ticks == []
    || (LegalDays(rows, ticks[..|ticks| - 1], start)
        && Legal(RunDays(rows, ticks[..|ticks| - 1], start), ticks[|ticks| - 1], start + |ticks|))
  }

  /** No day after the last tick has a row stamped with it. */
  lemma {:induction false} FutureWindowsAreEmpty(rows: Tables, ticks: seq<seq<Op>>, start: int, table: string, day: int)
    requires forall later :: later > start ==> Window(rows, table, later) == {}
    requires day > start + |ticks|
    ensures Window(RunDays(rows, ticks, start), table, day) == {}
  {
    if ticks != [] {
      var front := ticks[..|ticks| - 1];
      FutureWindowsAreEmpty(rows, front, start, table, day);
      OtherDaysOnlyLose(RunDays(rows, front, start), ticks[|ticks| - 1], start + |ticks|, table, day);
    }
  }

  /** What the log says of a table's window. */
  function Logged(ops: seq<Op>, table: string): int {
    Log(ops).Count(table, Inserted) + Log(ops).Count(table, Updated)
  }

  /** No row was updated after the tick inserted it, and none it touched was deleted by it. */
  ghost predicate NothingTwice(ops: seq<Op>, table: string) {
    var i, u, d := InsertedKeys(ops, table), UpdatedKeys(ops, table), DeletedKeys(ops, table);
    i !! u && (i + u) !! d
  }

  lemma {:induction false} FrontIsLegal(rows: Tables, ticks: seq<seq<Op>>, start: int, n: nat)
    requires LegalDays(rows, ticks, start) && n <= |ticks|
    ensures LegalDays(rows, ticks[..n], start)
  {
    if n < |ticks| {
      FrontIsLegal(rows, ticks[..|ticks| - 1], start, n);
      assert ticks[..|ticks| - 1][..n] == ticks[..n];
    } else {
      assert ticks[..n] == ticks;
    }
  }

  /** Later ticks never make a window hold more than it did right after its own tick. */
  lemma {:induction false} LaterTicksOnlyLose(rows: Tables, ticks: seq<seq<Op>>, start: int, table: string, n: nat)
    requires n < |ticks|
    ensures |Window(RunDays(rows, ticks, start), table, start + n + 1)|
         <= |Window(RunDays(rows, ticks[..n + 1], start), table, start + n + 1)|
    decreases |ticks|
  {
    if n == |ticks| - 1 {
      assert ticks[..n + 1] == ticks;
    } else {
      LaterTicksOnlyLose(rows, ticks[..|ticks| - 1], start, table, n);
      assert ticks[..|ticks| - 1][..n + 1] == ticks[..n + 1];
      LaterTickOnlyLoses(rows, ticks, start, table, start + n + 1);
    }
  }

  /** Right after each tick of any sequence its log is exact up to its own overlaps; after any number of later
      ticks its window holds no more than that. */
  lemma {:induction false} EveryTickReconciles(rows: Tables, ticks: seq<seq<Op>>, start: int, table: string, n: nat)
    requires LegalDays(rows, ticks, start) && n < |ticks|
    requires forall later :: later > start ==> Window(rows, table, later) == {}
    ensures Logged(ticks[n], table) == |Window(RunDays(rows, ticks[..n + 1], start), table, start + n + 1)|
            <==> NothingTwice(ticks[n], table)
    ensures |Window(RunDays(rows, ticks, start), table, start + n + 1)| <= Logged(ticks[n], table)
  {
    FrontIsLegal(rows, ticks, start, n + 1);
    LastTickReconciles(rows, ticks[..n + 1], start, table);
    LaterTicksOnlyLose(rows, ticks, start, table, n);
  }

  lemma {:induction false} LastTickReconciles(rows: Tables, ticks: seq<seq<Op>>, start: int, table: string)
    requires ticks != [] && LegalDays(rows, ticks, start)
    requires forall later :: later > start ==> Window(rows, table, later) == {}
    ensures var ops, inWindow := ticks[|ticks| - 1], |Window(RunDays(rows, ticks, start), table, start + |ticks|)|;
            inWindow <= Logged(ops, table) && (Logged(ops, table) == inWindow <==> NothingTwice(ops, table))
  {
    var n := |ticks| - 1;
    FutureWindowsAreEmpty(rows, ticks[..n], start, table, start + |ticks|);
    LogAgainstWindow(RunDays(rows, ticks[..n], start), ticks[n], start + |ticks|, table);
  }

  lemma {:induction false} LaterTickOnlyLoses(rows: Tables, ticks: seq<seq<Op>>, start: int, table: string, day: int)
    requires ticks != [] && day != start + |ticks|
    ensures |Window(RunDays(rows, ticks, start), table, day)| <= |Window(RunDays(rows, ticks[..|ticks| - 1], start),
                                                                         table, day)|
  {
    var before := RunDays(rows, ticks[..|ticks| - 1], start);
    OtherDaysOnlyLose(before, ticks[|ticks| - 1], start + |ticks|, table, day);
    SubsetSize(Window(RunDays(rows, ticks, start), table, day), Window(before, table, day));
  }

  lemma {:induction false} SubsetSize(a: set<int>, b: set<int>)
    requires a <= b
    ensures |a| <= |b|
  {
    assert b == a + (b - a);
  }

  // ---------------------------------------------------------------- the reconciliation

  datatype TableReconciliation = TableReconciliation(table: string, logged: int, inWindow: int) {
    predicate Agrees() {
      logged == inWindow
    }
  }

  function In(counts: map<string, int>, table: string): int {
    if table in counts then counts[table] else 0
  }

  function LoggedOf(): TableReconciliation -> int {
    (t: TableReconciliation) => t.logged
  }

  function CountOf(logged: map<string, int>): string -> int {
    (table: string) => In(logged, table)
  }

  predicate AllAgree(tables: seq<TableReconciliation>) {
    forall i :: 0 <= i < |tables| ==> tables[i].Agrees()
  }

  /** Every table of the load order has as many rows in the window as the log says. */
  predicate SameCounts(inWindow: map<string, int>, logged: map<string, int>, loadOrder: seq<string>) {
    forall k :: 0 <= k < |loadOrder| ==> In(logged, loadOrder[k]) == In(inWindow, loadOrder[k])
  }

  lemma {:induction false} NextTable(
    inWindow: map<string, int>, logged: map<string, int>, order: seq<string>, table: string,
    tables: seq<TableReconciliation>)
    requires AllAgree(tables) <==> SameCounts(inWindow, logged, order)
    ensures var row := TableReconciliation(table, In(logged, table), In(inWindow, table));
            AllAgree(tables + [row]) <==> SameCounts(inWindow, logged, order + [table])
    ensures In(logged, table) == In(inWindow, table) == 0 ==>
              (AllAgree(tables) <==> SameCounts(inWindow, logged, order + [table]))
  {
    var row := TableReconciliation(table, In(logged, table), In(inWindow, table));
    var longer, more := order + [table], tables + [row];
    assert SameCounts(inWindow, logged, longer) <==> SameCounts(inWindow, logged, order) && row.Agrees() by {
      assert longer[|order|] == table && forall k :: 0 <= k < |order| ==> longer[k] == order[k];
    }
    assert AllAgree(more) <==> AllAgree(tables) && row.Agrees() by {
      assert more[|tables|] == row && forall k :: 0 <= k < |tables| ==> more[k] == tables[k];
    }
  }

  function InWindowOf(): TableReconciliation -> int {
    (t: TableReconciliation) => t.inWindow
  }

  /** The tables compared: those of the load order with something on either side, in that order. */
  function Compared(
    inWindow: map<string, int>, logged: map<string, int>, order: seq<string>): seq<TableReconciliation> {
    if order == [] then []
    else
      var table := order[|order| - 1];
      var row := TableReconciliation(table, In(logged, table), In(inWindow, table));
      Compared(inWindow, logged, order[..|order| - 1]) + if row.inWindow != 0 || row.logged != 0 then [row] else []
  }

  /** The tables of the load order with a row in the window or a count in the log. */
  function WithSomething(inWindow: map<string, int>, logged: map<string, int>): string -> bool {
    (table: string) => In(inWindow, table) != 0 || In(logged, table) != 0
  }

  /** Exactly those are listed, in that order, each with both its counts. */
  lemma {:induction false} ListsTablesWithSomething(
    inWindow: map<string, int>, logged: map<string, int>, order: seq<string>)
    ensures var tables, kept := Compared(inWindow, logged, order), Kept(order, WithSomething(inWindow, logged));
            |tables| == |kept|
            && forall i :: 0 <= i < |tables| ==>
                tables[i].table == kept[i] && tables[i].logged == In(logged, kept[i])
                && tables[i].inWindow == In(inWindow, kept[i])
  {
    if order != [] {
      ListsTablesWithSomething(inWindow, logged, order[..|order| - 1]);
    }
  }

  /** Leaving out a table with nothing on either side hides no disagreement. */
  lemma {:induction false} NothingIsHidden(inWindow: map<string, int>, logged: map<string, int>, order: seq<string>)
    ensures AllAgree(Compared(inWindow, logged, order)) <==> SameCounts(inWindow, logged, order)
  {
    if order != [] {
      var front, table := order[..|order| - 1], order[|order| - 1];
      NothingIsHidden(inWindow, logged, front);
      assert order == front + [table];
      NextTable(inWindow, logged, front, table, Compared(inWindow, logged, front));
      assert Compared(inWindow, logged, front) + [] == Compared(inWindow, logged, front);
    }
  }

  /** Nor does it hide a count. */
  lemma {:induction false} NothingIsLost(
    inWindow: map<string, int>, logged: map<string, int>, order: seq<string>, weight: TableReconciliation -> int,
    counts: map<string, int>)
    requires forall table: string ::
               weight(TableReconciliation(table, In(logged, table), In(inWindow, table))) == In(counts, table)
    requires counts == logged || counts == inWindow
    ensures Sum(Compared(inWindow, logged, order), weight) == Sum(order, CountOf(counts))
  {
    if order != [] {
      var front, table := order[..|order| - 1], order[|order| - 1];
      NothingIsLost(inWindow, logged, front, weight, counts);
      var row := TableReconciliation(table, In(logged, table), In(inWindow, table));
      SumAppend(Compared(inWindow, logged, front), row, weight);
      assert Compared(inWindow, logged, front) + [] == Compared(inWindow, logged, front);
    }
  }

  /** Compares one tick's logged counts with its window, table by table. */
  method Reconcile(inWindow: map<string, int>, logged: map<string, int>, loadOrder: seq<string>)
    returns (tables: seq<TableReconciliation>)
    ensures tables == Compared(inWindow, logged, loadOrder)
    ensures AllAgree(tables) <==> SameCounts(inWindow, logged, loadOrder)
    ensures Sum(tables, LoggedOf()) == Sum(loadOrder, CountOf(logged))
    ensures Sum(tables, InWindowOf()) == Sum(loadOrder, CountOf(inWindow))
  {
    tables := [];
    for n := 0 to |loadOrder|
      invariant tables == Compared(inWindow, logged, loadOrder[..n])
    {
      var table := loadOrder[n];
      var counted, recorded := In(inWindow, table), In(logged, table);
      assert loadOrder[..n + 1][..n] == loadOrder[..n];
      if counted != 0 || recorded != 0 {
        tables := tables + [TableReconciliation(table, recorded, counted)];
      }
    }
    assert loadOrder[..|loadOrder|] == loadOrder;
    NothingIsHidden(inWindow, logged, loadOrder);
    NothingIsLost(inWindow, logged, loadOrder, LoggedOf(), logged);
    NothingIsLost(inWindow, logged, loadOrder, InWindowOf(), inWindow);
  }
}
