/** Versioned contracts: the chain of an entity's versions, and the version in force on a day. */
module Contracts {
  import opened Rows
  import Sorting

  datatype Column = Column(name: string, dataType: string, classification: string)

  /** `starts` is the first business day the version applies to; none means from the start of history. `named` are the
      columns the contract names itself: its key's, and its watermark. */
  datatype Contract = Contract(
    entity: string, version: int, starts: Option<int>, columns: seq<Column>, named: seq<string>
  ) {
    predicate Describes(name: string) {
      exists i :: 0 <= i < |columns| && columns[i].name == name
    }

    /** What reading one file requires of it. */
    predicate Parses() {
      && columns != []
      && (forall i, j :: 0 <= i < j < |columns| ==> columns[i].name != columns[j].name)
      && (starts.None? ==> version == 1)
      && (forall k :: 0 <= k < |named| ==> Describes(named[k]))
    }

    predicate StartedBy(day: int) {
      starts.None? || starts.value <= day
    }
  }

  /** Takes over on a later day. */
  predicate TakesOver(earlier: Contract, later: Contract) {
    later.starts.Some? && (earlier.starts.Some? ==> earlier.starts.value < later.starts.value)
  }

  /** Versions strictly increase, the oldest of several applies from the start, and each later one takes over on a
      later day. */
  ghost predicate Chain(versions: seq<Contract>) {
    && versions != []
    && Increasing(versions)
    && (|versions| > 1 ==> versions[0].starts.None?)
    && (forall i :: 0 < i < |versions| ==> TakesOver(versions[i - 1], versions[i]))
  }

  ghost predicate IsChainOf(chain: seq<Contract>, current: Contract, history: seq<Contract>) {
    Chain(chain) && multiset(chain) == multiset([current] + history) && chain[|chain| - 1] == current
  }

  function ByVersion(): Contract -> Sorting.Key {
    (c: Contract) => Sorting.Key(c.version, 0, 0)
  }

  ghost predicate Increasing(versions: seq<Contract>) {
    forall i, j :: 0 <= i < j < |versions| ==> versions[i].version < versions[j].version
  }

  lemma {:induction false} SameLast(chain: seq<Contract>, sorted: seq<Contract>, n: nat)
    requires |chain| == |sorted| == n + 1
    requires Increasing(chain) && Sorting.Ascending(sorted, ByVersion()) && multiset(chain) == multiset(sorted)
    ensures chain[n] == sorted[n]
  {
    Sorting.SameMembers(chain, sorted, chain[n]);
    Sorting.SameMembers(chain, sorted, sorted[n]);
    var i :| 0 <= i <= n && chain[i] == sorted[n];
    var j :| 0 <= j <= n && sorted[j] == chain[n];
    assert Sorting.AtMost(ByVersion()(sorted[j]), ByVersion()(sorted[n])) || j == n;
  }

  /** A chain is the one way to put its versions in order. */
  lemma {:induction false} OneOrder(chain: seq<Contract>, sorted: seq<Contract>)
    requires Increasing(chain) && Sorting.Ascending(sorted, ByVersion()) && multiset(chain) == multiset(sorted)
    ensures chain == sorted
  {
    SameLength(chain, sorted);
    if chain != [] {
      var n := |chain| - 1;
      SameLast(chain, sorted, n);
      FrontMembers(chain, n);
      FrontMembers(sorted, n);
      OneOrder(chain[..n], sorted[..n]);
      assert chain == chain[..n] + [chain[n]] && sorted == sorted[..n] + [sorted[n]];
    }
  }

  lemma {:induction false} SameLength(a: seq<Contract>, b: seq<Contract>)
    requires multiset(a) == multiset(b)
    ensures |a| == |b|
  {
    assert |multiset(a)| == |a| && |multiset(b)| == |b|;
  }

  lemma {:induction false} FrontMembers(s: seq<Contract>, n: nat)
    requires |s| == n + 1
    ensures multiset(s[..n]) == multiset(s) - multiset{s[n]}
  {
    assert s == s[..n] + [s[n]];
  }

  /** Whatever chain the versions make is their stable sort. */
  lemma {:induction false} OnlyTheSorted(chain: seq<Contract>, current: Contract, history: seq<Contract>)
    requires IsChainOf(chain, current, history)
    ensures chain == Sorting.SortedBy([current] + history, ByVersion())
  {
    Sorting.SortedByOrders([current] + history, ByVersion());
    OneOrder(chain, Sorting.SortedBy([current] + history, ByVersion()));
  }

  /** Checks versions that are in order; refused exactly when they make no chain ending in the current file. */
  method CheckChain(versions: seq<Contract>, current: Contract) returns (r: Result<seq<Contract>>)
    requires versions != []
    ensures r.Ok? <==> Chain(versions) && versions[|versions| - 1] == current
    ensures r.Ok? ==> r.value == versions
  {
    for i := 1 to |versions|
      invariant forall k :: 0 < k < i ==> versions[k - 1].version < versions[k].version
    {
      if versions[i - 1].version >= versions[i].version {
        return Refused("version recorded twice");
      }
    }
    Strict(versions);
    if versions[|versions| - 1] != current {
      return Refused("the current file must be the highest");
    }
    if |versions| > 1 && versions[0].starts.Some? {
      return Refused("the oldest version must apply from the start");
    }
    for i := 1 to |versions|
      invariant forall k :: 0 < k < i ==> TakesOver(versions[k - 1], versions[k])
    {
      var earlier, later := versions[i - 1], versions[i];
      if later.starts.None? || (earlier.starts.Some? && later.starts.value <= earlier.starts.value) {
        assert !TakesOver(versions[i - 1], versions[i]);
        return Refused("must take over on a later day");
      }
    }
    return Ok(versions);
  }

  /** Orders and checks one entity's versions; refused exactly when they make no chain ending in the current file. */
  method OrderChain(current: Contract, history: seq<Contract>) returns (r: Result<seq<Contract>>)
    ensures r.Ok? ==> IsChainOf(r.value, current, history)
    ensures r.Refused? ==> forall chain :: !IsChainOf(chain, current, history)
  {
    var versions := Sorting.Sorted([current] + history, ByVersion());
    SameLength(versions, [current] + history);
    forall chain: seq<Contract> | IsChainOf(chain, current, history) ensures chain == versions {
      OnlyTheSorted(chain, current, history);
    }
    r := CheckChain(versions, current);
  }

  lemma {:induction false} Strict(versions: seq<Contract>)
    requires forall k :: 0 < k < |versions| ==> versions[k - 1].version < versions[k].version
    ensures Increasing(versions)
  {
    if versions != [] {
      var n := |versions| - 1;
      var front := versions[..n];
      Strict(front);
      forall i, j | 0 <= i < j < |versions| ensures versions[i].version < versions[j].version {
        if j == n && i < n - 1 {
          assert front[i].version < front[n - 1].version;
        }
      }
    }
  }

  // ---------------------------------------------------------------- every chain under a directory

  /** A superseded version's file, named by entity and version. */
  datatype HistoryFile = HistoryFile(entity: string, version: int, contract: Contract) {
    predicate NamesItsContract() {
      entity == contract.entity && version == contract.version
    }
  }

  function HistoryOf(files: seq<HistoryFile>, entity: string): seq<Contract> {
    if files == [] then []
    else
      var last := files[|files| - 1];
      HistoryOf(files[..|files| - 1], entity) + if last.entity == entity then [last.contract] else []
  }

  lemma {:induction false} NextFile(files: seq<HistoryFile>, n: nat)
    requires n < |files|
    ensures forall e :: HistoryOf(files[..n + 1], e)
                     == HistoryOf(files[..n], e) + if files[n].entity == e then [files[n].contract] else []
  {
    assert files[..n + 1][..n] == files[..n] && files[..n + 1][n] == files[n];
  }

  ghost predicate Chainable(current: Contract, history: seq<Contract>) {
    exists chain :: IsChainOf(chain, current, history)
  }

  predicate DistinctEntities(currents: seq<Contract>) {
    forall i, j :: 0 <= i < j < |currents| ==> currents[i].entity != currents[j].entity
  }

  predicate Placed(currents: seq<Contract>, file: HistoryFile) {
    file.contract.Parses() && file.NamesItsContract()
      && exists i :: 0 <= i < |currents| && currents[i].entity == file.entity
  }

  ghost predicate Loadable(currents: seq<Contract>, files: seq<HistoryFile>) {
    && DistinctEntities(currents) && (forall i :: 0 <= i < |currents| ==> currents[i].Parses())
    && (forall i :: 0 <= i < |files| ==> Placed(currents, files[i])) && AllChainable(currents, files)
  }

  ghost predicate AllChainable(currents: seq<Contract>, files: seq<HistoryFile>) {
    forall i :: 0 <= i < |currents| ==> Chainable(currents[i], HistoryOf(files, currents[i].entity))
  }

  /** Every entity has its chain. */
  ghost predicate AllOrdered(chains: map<string, seq<Contract>>, currents: seq<Contract>, files: seq<HistoryFile>) {
    forall i :: 0 <= i < |currents| ==>
      && currents[i].entity in chains
      && IsChainOf(chains[currents[i].entity], currents[i], HistoryOf(files, currents[i].entity))
  }

  /** The contracts read so far, keyed on entity: each parses, and no two name one entity. */
  ghost predicate Keyed(contracts: map<string, Contract>, currents: seq<Contract>) {
    && DistinctEntities(currents) && (forall i :: 0 <= i < |currents| ==> currents[i].Parses())
    && (forall e :: e in contracts <==> exists i :: 0 <= i < |currents| && currents[i].entity == e)
    && (forall i :: 0 <= i < |currents| ==>
        currents[i].entity in contracts && contracts[currents[i].entity] == currents[i])
  }

  lemma {:induction false} NextKeyed(contracts: map<string, Contract>, currents: seq<Contract>, c: Contract)
    requires Keyed(contracts, currents) && c.Parses()
    ensures c.entity !in contracts ==> Keyed(contracts[c.entity := c], currents + [c])
    ensures c.entity in contracts ==> exists i :: 0 <= i < |currents| && currents[i].entity == c.entity
  {
    if c.entity !in contracts {
      var longer, more := currents + [c], contracts[c.entity := c];
      forall e ensures e in more <==> exists i :: 0 <= i < |longer| && longer[i].entity == e {
        if e in contracts {
          var i :| 0 <= i < |currents| && currents[i].entity == e;
          assert longer[i].entity == e;
        }
        assert longer[|currents|] == c;
      }
    }
  }

  /** The current contracts, keyed on entity; two files of one entity are refused. */
  method LoadAll(currents: seq<Contract>) returns (r: Result<map<string, Contract>>)
    ensures r.Ok? <==> DistinctEntities(currents) && forall i :: 0 <= i < |currents| ==> currents[i].Parses()
    ensures r.Ok? ==> Keyed(r.value, currents)
  {
    var contracts: map<string, Contract> := map[];
    for n := 0 to |currents|
      invariant Keyed(contracts, currents[..n])
    {
      var contract := currents[n];
      if !contract.Parses() {
        return Refused("not a contract");
      }
      NextKeyed(contracts, currents[..n], contract);
      if contract.entity in contracts {
        var i :| 0 <= i < |currents[..n]| && currents[..n][i].entity == contract.entity;
        assert currents[i].entity == currents[n].entity;
        return Refused("entity already contracted");
      }
      assert currents[..n + 1] == currents[..n] + [contract];
      contracts := contracts[contract.entity := contract];
    }
    assert currents[..|currents|] == currents;
    return Ok(contracts);
  }

  /** A superseded file that reads, is named after its contract, and has a current one. */
  predicate Filed(loaded: map<string, Contract>, file: HistoryFile) {
    file.contract.Parses() && file.NamesItsContract() && file.entity in loaded
  }

  /** The superseded versions of each entity, in the order their files are read. */
  method GroupHistory(
    loaded: map<string, Contract>, files: seq<HistoryFile>) returns (r: Result<map<string, seq<Contract>>>)
    ensures r.Ok? <==> forall i :: 0 <= i < |files| ==> Filed(loaded, files[i])
    ensures r.Ok? ==> r.value.Keys == loaded.Keys && forall e :: e in r.value ==> r.value[e] == HistoryOf(files, e)
  {
    var chains: map<string, seq<Contract>> := map e | e in loaded :: [];
    for n := 0 to |files|
      invariant chains.Keys == loaded.Keys && forall i :: 0 <= i < n ==> Filed(loaded, files[i])
      invariant forall e :: e in chains ==> chains[e] == HistoryOf(files[..n], e)
    {
      var file := files[n];
      if !file.contract.Parses() || !file.NamesItsContract() {
        assert !Filed(loaded, files[n]);
        return Refused("a superseded contract is named after its entity and version");
      }
      if file.entity !in chains {
        assert !Filed(loaded, files[n]);
        return Refused("no current contract");
      }
      assert Filed(loaded, files[n]);
      NextFile(files, n);
      chains := chains[file.entity := chains[file.entity] + [file.contract]];
    }
    assert files[..|files|] == files;
    return Ok(chains);
  }

  /** Each entity's superseded versions. */
  ghost predicate Grouped(chains: map<string, seq<Contract>>, currents: seq<Contract>, files: seq<HistoryFile>) {
    forall i :: 0 <= i < |currents| ==>
      currents[i].entity in chains && chains[currents[i].entity] == HistoryOf(files, currents[i].entity)
  }

  lemma {:induction false} FiledIsPlaced(
    loaded: map<string, Contract>, currents: seq<Contract>, files: seq<HistoryFile>)
    requires Keyed(loaded, currents)
    ensures (forall i :: 0 <= i < |files| ==> Filed(loaded, files[i]))
            <==> (forall i :: 0 <= i < |files| ==> Placed(currents, files[i]))
  {
    forall i | 0 <= i < |files| ensures Filed(loaded, files[i]) <==> Placed(currents, files[i]) {}
  }

  lemma {:induction false} ChainsAreGrouped(
    loaded: map<string, Contract>, currents: seq<Contract>, files: seq<HistoryFile>, chains: map<string, seq<Contract>>)
    requires Keyed(loaded, currents) && chains.Keys == loaded.Keys
    requires forall e :: e in chains ==> chains[e] == HistoryOf(files, e)
    ensures Grouped(chains, currents, files)
  {
  }

  /** Every entity's versions, each put in order. */
  method OrderAll(currents: seq<Contract>, ghost files: seq<HistoryFile>, chains: map<string, seq<Contract>>)
    returns (r: Result<map<string, seq<Contract>>>)
    requires DistinctEntities(currents) && Grouped(chains, currents, files)
    ensures r.Ok? <==> AllChainable(currents, files)
    ensures r.Ok? ==> AllOrdered(r.value, currents, files)
  {
    var ordered: map<string, seq<Contract>> := map[];
    for n := 0 to |currents|
      invariant AllOrdered(ordered, currents[..n], files)
    {
      var current := currents[n];
      var chain := OrderChain(current, chains[current.entity]);
      if chain.Refused? {
        assert !Chainable(current, HistoryOf(files, current.entity));
        return Refused(chain.reason);
      }
      NextOrdered(ordered, currents, n, files, chain.value);
      ordered := ordered[current.entity := chain.value];
    }
    assert currents[..|currents|] == currents;
    forall i | 0 <= i < |currents| ensures Chainable(currents[i], HistoryOf(files, currents[i].entity)) {
      assert IsChainOf(ordered[currents[i].entity], currents[i], HistoryOf(files, currents[i].entity));
    }
    return Ok(ordered);
  }

  lemma {:induction false} NextOrdered(
    ordered: map<string, seq<Contract>>, currents: seq<Contract>, n: nat, files: seq<HistoryFile>, chain: seq<Contract>)
    requires n < |currents| && DistinctEntities(currents) && AllOrdered(ordered, currents[..n], files)
    requires IsChainOf(chain, currents[n], HistoryOf(files, currents[n].entity))
    ensures AllOrdered(ordered[currents[n].entity := chain], currents[..n + 1], files)
  {
    var front, longer := currents[..n], currents[..n + 1];
    forall i | 0 <= i < |longer|
      ensures longer[i].entity in ordered[currents[n].entity := chain]
      ensures IsChainOf(ordered[currents[n].entity := chain][longer[i].entity], longer[i],
                        HistoryOf(files, longer[i].entity))
    {
      if i < n {
        assert longer[i] == front[i] && currents[i].entity != currents[n].entity;
      }
    }
  }

  /** Every version of every contract, oldest first; refused exactly when a file cannot be read, is misplaced, or an
      entity's versions make no chain. */
  method LoadHistory(currents: seq<Contract>, files: seq<HistoryFile>) returns (r: Result<map<string, seq<Contract>>>)
    ensures r.Ok? <==> Loadable(currents, files)
    ensures r.Ok? ==> AllOrdered(r.value, currents, files)
  {
    var loaded := LoadAll(currents);
    if loaded.Refused? {
      return Refused(loaded.reason);
    }
    FiledIsPlaced(loaded.value, currents, files);
    var chains := GroupHistory(loaded.value, files);
    if chains.Refused? {
      return Refused(chains.reason);
    }
    ChainsAreGrouped(loaded.value, currents, files, chains.value);
    r := OrderAll(currents, files, chains.value);
  }

  // ---------------------------------------------------------------- the version in force

  /** Whether a day lies in the half-open interval a version is in force for. */
  predicate Holds(versions: seq<Contract>, i: nat, day: int)
    requires i < |versions|
  {
    versions[i].StartedBy(day) && (i + 1 < |versions| ==> !versions[i + 1].StartedBy(day))
  }

  /** The version the latest start on or before the day belongs to. */
  function Chosen(versions: seq<Contract>, day: int): Option<Contract> {
    if versions == [] then None
    else if versions[|versions| - 1].StartedBy(day) then Some(versions[|versions| - 1])
    else Chosen(versions[..|versions| - 1], day)
  }

  method InForce(versions: seq<Contract>, day: int) returns (r: Result<Contract>)
    ensures r.Ok? <==> Chosen(versions, day).Some?
    ensures r.Ok? ==> Chosen(versions, day) == Some(r.value)
  {
    var chosen: Option<Contract> := None;
    for n := 0 to |versions|
      invariant chosen == Chosen(versions[..n], day)
    {
      assert versions[..n + 1][..n] == versions[..n] && versions[..n + 1][n] == versions[n];
      if versions[n].StartedBy(day) {
        chosen := Some(versions[n]);
      }
    }
    assert versions[..|versions|] == versions;
    return if chosen.None? then Refused("no contract version is in force") else Ok(chosen.value);
  }

  /** In a chain a version that has started leaves every earlier one started too. */
  lemma {:induction false} StartsAscend(versions: seq<Contract>, i: nat, j: nat, day: int)
    requires Chain(versions) && i <= j < |versions| && versions[j].StartedBy(day)
    ensures versions[i].StartedBy(day)
    decreases j
  {
    if i < j {
      assert TakesOver(versions[j - 1], versions[j]);
      StartsAscend(versions, i, j - 1, day);
    }
  }

  lemma {:induction false} FrontIsChain(versions: seq<Contract>)
    requires Chain(versions) && |versions| > 1
    ensures Chain(versions[..|versions| - 1])
  {
    var front := versions[..|versions| - 1];
    forall i | 0 < i < |front| ensures TakesOver(front[i - 1], front[i]) {
      assert TakesOver(versions[i - 1], versions[i]);
    }
  }

  /** A version is in force from its start until the day before the next one's, both counted in days. */
  lemma {:induction false} HoldsFromItsStart(versions: seq<Contract>, i: nat, day: int)
    requires Chain(versions) && i < |versions|
    ensures Holds(versions, i, day) <==>
              && (versions[i].starts.Some? ==> versions[i].starts.value <= day)
              && (i + 1 < |versions| ==> versions[i + 1].starts.Some? && day < versions[i + 1].starts.value)
  {
    if i + 1 < |versions| {
      assert TakesOver(versions[i], versions[i + 1]);
    }
  }

  /** The version chosen for a day is the only one whose interval holds the day. */
  lemma {:induction false} ChosenIsTheOneThatHolds(versions: seq<Contract>, day: int, i: nat)
    requires Chain(versions) && i < |versions|
    ensures Holds(versions, i, day) <==> Chosen(versions, day) == Some(versions[i])
  {
    var n := |versions| - 1;
    var front := versions[..n];
    if versions[n].StartedBy(day) {
      if i < n {
        StartsAscend(versions, i + 1, n, day);
        assert versions[i].version < versions[n].version;
      }
    } else if n == 0 {
      assert Chosen(front, day) == None;
    } else {
      FrontIsChain(versions);
      if i < n {
        ChosenIsTheOneThatHolds(front, day, i);
      } else {
        ChosenIsAmong(front, day);
        if Chosen(front, day).Some? {
          var k :| 0 <= k < n && front[k] == Chosen(front, day).value;
          assert versions[k].version < versions[n].version;
        }
      }
    }
  }

  lemma {:induction false} ChosenIsAmong(versions: seq<Contract>, day: int)
    ensures Chosen(versions, day).Some? ==>
              Chosen(versions, day).value in versions && Chosen(versions, day).value.StartedBy(day)
    ensures Chosen(versions, day).None? <==> forall i :: 0 <= i < |versions| ==> !versions[i].StartedBy(day)
  {
    if versions != [] {
      ChosenIsAmong(versions[..|versions| - 1], day);
    }
  }

  /** A chain leaves a day without a contract exactly when it is a single version that starts after it. */
  lemma {:induction false} OnlyALoneVersionCanBeMissing(versions: seq<Contract>, day: int)
    requires Chain(versions)
    ensures Chosen(versions, day).None?
            <==> |versions| == 1 && versions[0].starts.Some? && day < versions[0].starts.value
  {
    ChosenIsAmong(versions, day);
    if !versions[0].StartedBy(day) {
      forall i | 0 <= i < |versions| ensures !versions[i].StartedBy(day) {
        if versions[i].StartedBy(day) {
          StartsAscend(versions, 0, i, day);
        }
      }
    }
  }

  /** A later day never selects an earlier version. */
  lemma {:induction false} SelectionIsMonotone(versions: seq<Contract>, day: int, later: int)
    requires Chain(versions) && day <= later && Chosen(versions, day).Some?
    ensures Chosen(versions, later).Some?
            && Chosen(versions, day).value.version <= Chosen(versions, later).value.version
  {
    var n := |versions| - 1;
    ChosenIsAmong(versions, day);
    if versions[n].StartedBy(later) {
      var k :| 0 <= k <= n && versions[k] == Chosen(versions, day).value;
    } else {
      if n > 0 {
        FrontIsChain(versions);
      }
      SelectionIsMonotone(versions[..n], day, later);
    }
  }

  /** Appending a version changes the choice for exactly the days from its start on. */
  lemma {:induction false} AppendingKeepsEarlierDays(versions: seq<Contract>, next: Contract, day: int)
    requires Chain(versions) && Chain(versions + [next])
    ensures Chosen(versions + [next], day) == Chosen(versions, day) <==> !next.StartedBy(day)
  {
    var longer := versions + [next];
    var n := |versions|;
    assert longer[..n] == versions && longer[n] == next;
    assert TakesOver(longer[n - 1], longer[n]);
    ChosenIsAmong(versions, day);
    if next.StartedBy(day) && Chosen(versions, day).Some? {
      var k :| 0 <= k < n && versions[k] == Chosen(versions, day).value;
      assert longer[k].version < longer[n].version;
    }
  }

  /** Every chain of several readable versions begins with version one, open from the start of history. */
  lemma {:induction false} ChainBeginsWithVersionOne(versions: seq<Contract>)
    requires Chain(versions) && |versions| > 1 && forall i :: 0 <= i < |versions| ==> versions[i].Parses()
    ensures versions[0].version == 1 && versions[0].starts == None
    ensures forall i, j :: 0 < i < j < |versions| ==> versions[i].starts.Some? && versions[j].starts.Some?
                                                      && versions[i].starts.value < versions[j].starts.value
  {
    assert versions[0].Parses();
    forall i, j | 0 < i < j < |versions|
      ensures versions[i].starts.Some? && versions[j].starts.Some?
              && versions[i].starts.value < versions[j].starts.value
    {
      LaterStarts(versions, i, j);
    }
  }

  lemma {:induction false} LaterStarts(versions: seq<Contract>, i: nat, j: nat)
    requires Chain(versions) && 0 < i < j < |versions|
    ensures versions[i].starts.Some? && versions[j].starts.Some? && versions[i].starts.value < versions[j].starts.value
    decreases j
  {
    assert TakesOver(versions[i - 1], versions[i]) && TakesOver(versions[j - 1], versions[j]);
    if i + 1 < j {
      LaterStarts(versions, i, j - 1);
    }
  }
}
