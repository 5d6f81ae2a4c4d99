/** Foreign keys come off for a load and go back on after it, journalled so that no kill loses one; unless the journal
    itself is cut short, the next load puts back what an earlier one left off. */
module Constraints {
  import opened Endings

  datatype ForeignKey = ForeignKey(table: string, name: string, definition: string)

  /** The journal file: missing, readable, or cut short by a kill or an error while it was being written. */
  datatype Journal = Absent | Whole(entries: seq<ForeignKey>) | Torn

  function Members(keys: seq<ForeignKey>): set<ForeignKey> {
    set key | key in keys
  }

  ghost predicate NoRepeats(keys: seq<ForeignKey>) {
    forall i, j :: 0 <= i < j < |keys| ==> keys[i] != keys[j]
  }

  ghost predicate UniqueNames(keys: set<ForeignKey>) {
    forall a, b :: a in keys && b in keys && a.name == b.name ==> a == b
  }

  predicate NamePresent(name: string, present: set<ForeignKey>) {
    exists key :: key in present && key.name == name
  }

  /** The journalled keys whose names the catalogue does not show. */
  function Missing(entries: seq<ForeignKey>, present: set<ForeignKey>): (missing: seq<ForeignKey>)
    ensures forall key :: key in missing <==> key in entries && !NamePresent(key.name, present)
  {
    if entries == [] then []
    else
      var rest := Missing(entries[1..], present);
      if NamePresent(entries[0].name, present) then rest else [entries[0]] + rest
  }

  /** What is missing can be added: no key of it is there already, and none comes twice. */
  lemma {:induction false} MissingCanBeAdded(entries: seq<ForeignKey>, present: set<ForeignKey>)
    requires NoRepeats(entries)
    ensures NoRepeats(Missing(entries, present)) && Members(Missing(entries, present)) !! present
  {
    if entries != [] {
      MissingCanBeAdded(entries[1..], present);
      var rest := Missing(entries[1..], present);
      assert entries[0] !in rest by {
        assert entries[0] !in entries[1..];
      }
    }
  }

  /** Restoring by name brings every key back from any partial state exactly when no two keys share a name. */
  lemma {:induction false} RestoringNeedsUniqueNames(original: seq<ForeignKey>)
    ensures (forall present: set<ForeignKey> :: present <= Members(original) ==>
               present + Members(Missing(original, present)) == Members(original))
            <==> UniqueNames(Members(original))
  {
    if UniqueNames(Members(original)) {
      forall present: set<ForeignKey> | present <= Members(original)
        ensures present + Members(Missing(original, present)) == Members(original)
      {
        RestoredByName(original, present, Members(original));
      }
    } else {
      var a, b :| a in original && b in original && a.name == b.name && a != b;
      assert NamePresent(b.name, {a});
      assert {a} <= Members(original) && b !in {a} + Members(Missing(original, {a}));
    }
  }

  /** What the catalogue shows and what the journal puts back by name are together the original keys. */
  lemma {:induction false} RestoredByName(entries: seq<ForeignKey>, present: set<ForeignKey>, original: set<ForeignKey>)
    requires UniqueNames(original) && present <= original
    requires Members(entries) <= original <= present + Members(entries)
    ensures present + Members(Missing(entries, present)) == original
  {
    forall key | key in original ensures key in present + Members(Missing(entries, present)) {
      if NamePresent(key.name, present) {
        var other :| other in present && other.name == key.name;
        assert other in original;
      }
    }
  }

  /** One load: whether it takes the keys off, and whether the world lets each of its effects through. */
  datatype Call = Call(dropKeys: bool, calm: bool)

  /** What the world does to the next effect: anything, or on calm ground nothing. */
  method NextFate(calm: bool) returns (fate: Fate)
    ensures calm ==> fate.Happens?
  {
    fate := AnyFate();
    if calm {
      fate := Happens;
    }
  }

  class Loader {
    var present: set<ForeignKey>
    var journal: Journal

    /** The original keys are never lost: what is not in the catalogue is in the journal. */
    ghost predicate Covers(original: set<ForeignKey>)
      reads this
    {
      && present <= original
      && match journal
         case Absent => present == original
         case Torn => present == original
         case Whole(entries) => NoRepeats(entries) && Members(entries) <= original <= present + Members(entries)
    }

    constructor (keys: set<ForeignKey>)
      ensures present == keys && journal == Absent && Covers(keys)
    {
      present, journal := keys, Absent;
    }

    /** The catalogue's keys, in some order. */
    method ForeignKeys() returns (keys: seq<ForeignKey>)
      ensures Members(keys) == present && NoRepeats(keys)
    {
      keys := [];
      var left := present;
      while left != {}
        invariant left <= present && Members(keys) == present - left && NoRepeats(keys)
        decreases left
      {
        var key :| key in left;
        assert key !in Members(keys);
        left := left - {key};
        assert Members(keys + [key]) == Members(keys) + {key};
        keys := keys + [key];
      }
    }

    /** Truncates the file and writes it, so an error or a kill part way leaves it cut short. */
    method WriteJournal(keys: seq<ForeignKey>, calm: bool) returns (r: Ended<()>)
      modifies this`journal
      ensures r.Returned? ==> journal == Whole(keys)
      ensures r.Raised? ==> journal == old(journal) || journal == Torn
      ensures r.Killed? ==> journal == old(journal) || journal == Torn || journal == Whole(keys)
      ensures calm ==> r.Returned?
    {
      var fate := NextFate(calm);
      var cutShort: bool := *;
      match fate
      case Happens => journal := Whole(keys); r := Returned(());
      case Fails => journal := if cutShort then Torn else journal; r := Raised;
      case KilledBefore => r := Killed;
      case KilledAfter => journal := if cutShort then Torn else Whole(keys); r := Killed;
    }

    method ClearJournal(calm: bool) returns (r: Ended<()>)
      modifies this`journal
      ensures r.Returned? ==> journal == Absent
      ensures journal == old(journal) || journal == Absent
      ensures calm ==> r.Returned?
    {
      var fate := NextFate(calm);
      match fate
      case Happens => journal := Absent; r := Returned(());
      case Fails => r := Raised;
      case KilledBefore => r := Killed;
      case KilledAfter => journal := Absent; r := Killed;
    }

    /** One session that takes keys off, statement by statement, stopping at the first error. */
    method DropAll(keys: seq<ForeignKey>, calm: bool) returns (r: Ended<()>)
      modifies this`present
      ensures old(present) - Members(keys) <= present <= old(present)
      ensures r.Returned? ==> present == old(present) - Members(keys)
      ensures calm && NoRepeats(keys) && Members(keys) <= old(present) ==> r.Returned?
    {
      for i := 0 to |keys|
        invariant present == old(present) - Members(keys[..i])
      {
        var fate := NextFate(calm);
        if fate.Fails? || keys[i] !in present {
          assert NoRepeats(keys) ==> keys[i] !in Members(keys[..i]);
          assert keys[i] in Members(keys);
          return Raised;
        }
        if fate.KilledBefore? {
          return Killed;
        }
        present := present - {keys[i]};
        assert Members(keys[..i + 1]) == Members(keys[..i]) + {keys[i]};
        if fate.KilledAfter? {
          return Killed;
        }
      }
      assert keys[..|keys|] == keys;
      return Returned(());
    }

    /** One session that puts keys on; one already there, or one the data violates, raises. */
    method AddAll(keys: seq<ForeignKey>, calm: bool) returns (r: Ended<()>)
      modifies this`present
      ensures old(present) <= present <= old(present) + Members(keys)
      ensures r.Returned? ==> present == old(present) + Members(keys)
      ensures calm && NoRepeats(keys) && Members(keys) !! old(present) ==> r.Returned?
    {
      for i := 0 to |keys|
        invariant present == old(present) + Members(keys[..i])
      {
        assert Members(keys[..i + 1]) == Members(keys[..i]) + {keys[i]};
        assert keys[i] in Members(keys) && Members(keys[..i]) <= Members(keys);
        var fate := NextFate(calm);
        if fate.Fails? || keys[i] in present {
          assert NoRepeats(keys) ==> keys[i] !in Members(keys[..i]);
          return Raised;
        }
        if fate.KilledBefore? {
          return Killed;
        }
        present := present + {keys[i]};
        if fate.KilledAfter? {
          return Killed;
        }
      }
      assert keys[..|keys|] == keys;
      return Returned(());
    }

    /** Puts back any key an earlier load dropped and never restored. On calm ground it succeeds, unless the journal is
        cut short, which it refuses to read. */
    method RestoreDroppedConstraints(calm: bool, ghost original: set<ForeignKey>) returns (r: Ended<nat>)
      requires Covers(original) && UniqueNames(original)
      modifies this
      ensures Covers(original)
      ensures r.Returned? ==> present == original && journal == Absent
      ensures old(journal) == Torn ==> r == Raised && present == old(present) && journal == Torn
      ensures old(journal) != Torn ==> journal != Torn
      ensures calm ==> (r.Returned? <==> old(journal) != Torn)
    {
      match journal
      case Absent => return Returned(0);
      case Torn => return Raised;
      case Whole(entries) =>
        var missing := Missing(entries, present);
        RestoredByName(entries, present, original);
        MissingCanBeAdded(entries, present);
        if missing != [] {
          var _ :- AddAll(missing, calm);
        }
        var _ :- ClearJournal(calm);
        return Returned(|missing|);
    }

    /** Statements that touch no key: the truncate, the copies and ledger chunks, the sequence sync, the counts. */
    method Elsewhere(calm: bool) returns (r: Ended<()>)
      ensures r == Returned(()) || r == Raised || r == Killed
      ensures calm ==> r.Returned?
    {
      var fate := NextFate(calm);
      r := if fate.Happens? then Returned(()) else if fate.Fails? then Raised else Killed;
    }

    /** One load. However it ends, the original keys are those present plus those journalled; one that returns has put
        them all back. On calm ground it returns if and only if it found no journal that was cut short. */
    method Load(call: Call, ghost original: set<ForeignKey>) returns (r: Ended<()>)
      requires Covers(original) && UniqueNames(original)
      modifies this
      ensures Covers(original) && Ends(call, old(journal), r, journal)
      ensures r.Returned? ==> present == original
      ensures old(journal) == Torn ==> present == old(present)
    {
      var _ :- RestoreDroppedConstraints(call.calm, original);
      var constraints: seq<ForeignKey> := [];
      if call.dropKeys {
        constraints := ForeignKeys();
      }
      if constraints != [] {
        var _ :- WriteJournal(constraints, call.calm);
      }
      assert Members([]) == {};
      r := CopyWithout(constraints, call.calm, original);
    }

    /** The load once the journal is written: the keys come off, the rows go in, the keys go back on. */
    method CopyWithout(constraints: seq<ForeignKey>, calm: bool, ghost original: set<ForeignKey>) returns (r: Ended<()>)
      requires present == original && NoRepeats(constraints)
      requires constraints == [] || (Members(constraints) == original && journal == Whole(constraints))
      requires constraints == [] ==> journal == Absent
      modifies this
      ensures Covers(original) && journal != Torn
      ensures r.Returned? ==> present == original && journal == Absent
      ensures calm ==> r.Returned?
    {
      assert Members([]) == {};
      var _ :- Elsewhere(calm);
      var _ :- DropAll(constraints, calm);
      var body := Elsewhere(calm);
      if body.Killed? {
        return Killed;
      }
      // The `finally` runs whether the copy returned or raised.
      var _ :- AddAll(constraints, calm);
      var _ :- Elsewhere(calm);
      var _ :- ClearJournal(calm);
      if body.Raised? {
        return Raised;
      }
      var counted := Elsewhere(calm);
      return counted;
    }

    /** However many loads run, whatever raises or is killed in each, no key is lost; the last one that returns has
        put everything back. On calm ground a load returns if and only if it finds no journal that was cut short, and
        once a load finds one, it and every later load refuses and changes nothing. */
    method AnyLoads(calls: seq<Call>, ghost original: set<ForeignKey>)
      returns (ends: seq<Ended<()>>, ghost found: seq<Journal>)
      requires Covers(original) && UniqueNames(original)
      modifies this
      ensures Covers(original) && Loads(calls, ends, found)
      ensures found[0] == old(journal) && found[|calls|] == journal
      ensures calls != [] && ends[|calls| - 1].Returned? ==> present == original && journal == Absent
      ensures forall k :: 0 <= k < |calls| && calls[k].calm && !ends[k].Returned? ==>
                journal == Torn && present == original && forall j :: k <= j < |calls| ==> ends[j] == Raised
    {
      ends, found := [], [journal];
      for i := 0 to |calls|
        invariant Covers(original) && Loads(calls[..i], ends, found)
        invariant found[0] == old(journal) && found[i] == journal
        invariant i > 0 && ends[i - 1].Returned? ==> present == original && journal == Absent
      {
        var r := Load(calls[i], original);
        OneMoreLoad(calls[..i], ends, found, calls[i], r, journal);
        assert calls[..i + 1] == calls[..i] + [calls[i]];
        ends, found := ends + [r], found + [journal];
      }
      assert calls[..|calls|] == calls;
      forall k | 0 <= k < |calls| && calls[k].calm && !ends[k].Returned?
        ensures journal == Torn && forall j :: k <= j < |calls| ==> ends[j] == Raised
      {
        assert Ends(calls[k], found[k], ends[k], found[k + 1]);
        TornStays(calls, ends, found, k);
      }
    }
  }

  /** How a load can end by the journal it finds, and what it can leave: a journal that is cut short is refused and
      stays; on calm ground nothing else is refused; and only a load that takes keys off, on no calm ground, and does
      not return can leave one. */
  ghost predicate Ends(call: Call, found: Journal, ended: Ended<()>, left: Journal) {
    && (found == Torn ==> ended == Raised && left == Torn)
    && (ended.Returned? ==> left == Absent)
    && (call.calm && found != Torn ==> ended.Returned?)
    && (found != Torn && left == Torn ==> call.dropKeys && !call.calm && !ended.Returned?)
  }

  /** The journal each of these loads found, and the one the last of them left. */
  ghost predicate Loads(calls: seq<Call>, ends: seq<Ended<()>>, found: seq<Journal>) {
    && |ends| == |calls| && |found| == |calls| + 1
    && forall k :: 0 <= k < |calls| ==> Ends(calls[k], found[k], ends[k], found[k + 1])
  }

  lemma {:induction false} OneMoreLoad(
    calls: seq<Call>, ends: seq<Ended<()>>, found: seq<Journal>, call: Call, ended: Ended<()>, left: Journal)
    requires Loads(calls, ends, found) && Ends(call, found[|calls|], ended, left)
    ensures Loads(calls + [call], ends + [ended], found + [left])
  {
    var all, more, longer := calls + [call], ends + [ended], found + [left];
    forall k | 0 <= k < |all| ensures Ends(all[k], longer[k], more[k], longer[k + 1]) {
      if k < |calls| {
        assert all[k] == calls[k] && more[k] == ends[k] && longer[k] == found[k] && longer[k + 1] == found[k + 1];
      }
    }
  }

  /** Once a load finds a journal that was cut short, it and every later one refuses, and the journal stays. */
  lemma {:induction false} TornStays(calls: seq<Call>, ends: seq<Ended<()>>, found: seq<Journal>, k: nat)
    requires Loads(calls, ends, found) && k <= |calls| && found[k] == Torn
    ensures found[|calls|] == Torn && forall j :: k <= j < |calls| ==> ends[j] == Raised
    decreases |calls| - k
  {
    if k < |calls| {
      assert Ends(calls[k], found[k], ends[k], found[k + 1]);
      TornStays(calls, ends, found, k + 1);
    }
  }
}
