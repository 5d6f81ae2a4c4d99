/** The world the backfill drives: the simulated source, Airflow's runs, the batch registry, and the one DAG's pause
    flag. Every call may raise, the process may be killed in it, and runs end in their own time. */
module Stack {
  import opened Rows
  import opened Endings
  import opened Registry
  import Calendar

  datatype RunKey = RunKey(dag: Dag, day: int)

  /** What moves without the backfill: runs and what they have registered. */
  datatype Env = Env(
    runs: map<RunKey, Run>, registry: map<int, set<Batch>>, feeds: map<RunKey, seq<FeedBatch>>, histories: set<int>)
  {
    function RunOf(key: RunKey): Option<Run> {
      if key in runs then Some(runs[key]) else None
    }

    predicate Idle(key: RunKey) {
      RunOf(key) != Some(Run.Active)
    }

    function BatchesOf(day: int): set<Batch> {
      if day in registry then registry[day] else {}
    }

    function FeedOf(key: RunKey): seq<FeedBatch> {
      if key in feeds then feeds[key] else []
    }

    function Starting(key: RunKey): Env {
      this.(runs := runs[key := Run.Active])
    }

    /** A run that ends well, with everything it was to register. */
    function Completed(catalogue: Catalogue, key: RunKey, history: set<int>): Env {
      Env(runs[key := Run.Succeeded],
          if key.dag.Relational()
          then registry[key.day := BatchesOf(key.day) + AllRegistered(catalogue, key.dag)]
          else registry,
          if key.dag.Relational() then feeds else feeds[key := []],
          histories + history)
    }
  }

  /** Every entity a relational DAG extracts, registered. */
  function AllRegistered(catalogue: Catalogue, dag: Dag): set<Batch> {
    set e | e in catalogue.Of(dag) :: Batch(dag, e, true)
  }

  /** Every batch of every day is one of the catalogue's entities. */
  ghost predicate Known(catalogue: Catalogue, env: Env) {
    forall day :: catalogue.Knows(env.BatchesOf(day))
  }

  /** The assumption completeness rests on: a terminal relational run leaves every entity registered or failed. */
  ghost predicate Honest(catalogue: Catalogue, env: Env) {
    forall key :: key in env.runs && key.dag.Relational() && env.runs[key] != Run.Active ==>
      AllEnded(catalogue, env.BatchesOf(key.day), key.dag)
  }

  /** One thing that happens in Airflow, the warehouse or at a sender, unasked. */
  datatype Move =
    | Register(key: RunKey, batch: Batch)
    | Attempt(key: RunKey, delivery: FeedBatch)
    | Revise(key: RunKey, index: nat, revised: FeedBatch)
    | Land(key: RunKey, index: nat)
    | Finish(key: RunKey, outcome: Run)

  /** The interval an FX batch adds to the registered ones. */
  function Published(key: RunKey, batch: FeedBatch): set<int> {
    if key.dag == Fx && batch.status == Registered then {batch.interval} else {}
  }

  /** Only a run still going registers batches or ends; a delivery can land at any time. A move the world does not
      allow leaves it as it was. */
  function Moved(catalogue: Catalogue, honest: bool, env: Env, move: Move): Env {
    var key := move.key;
    var going, feed := !env.Idle(key), env.FeedOf(key);
    match move
    case Register(_, batch) =>
      if !going || !key.dag.Relational() || batch.owner != key.dag || batch.entity !in catalogue.Of(key.dag) then env
      else env.(registry := env.registry[key.day := env.BatchesOf(key.day) + {batch}])
    case Attempt(_, batch) =>
      if !going then env
      else env.(feeds := env.feeds[key := feed + [batch]], histories := env.histories + Published(key, batch))
    case Revise(_, index, batch) =>
      if !going || index >= |feed| then env
      else env.(feeds := env.feeds[key := feed[index := batch]], histories := env.histories + Published(key, batch))
    case Land(_, index) =>
      if index >= |feed| then env
      else env.(feeds := env.feeds[key := feed[index := feed[index].(delivery := Landed)]])
    case Finish(_, outcome) =>
      if !going || outcome.Active?
        || (honest && key.dag.Relational() && !AllEnded(catalogue, env.BatchesOf(key.day), key.dag)) then env
      else env.(runs := env.runs[key := outcome])
  }

  /** What can happen to the runs and the registry while the backfill touches only some runs: batches are only ever
      added, each by a run that was going or was touched, and an untouched run that has ended stays as it ended, its
      deliveries at most landing late. */
  ghost predicate Evolved(before: Env, after: Env, touched: set<RunKey>) {
    && (forall key :: key !in touched ==> (key in before.runs <==> key in after.runs))
    && (forall key :: key in before.runs && key !in touched && before.runs[key] != Run.Active ==>
          after.RunOf(key) == before.RunOf(key) && Improved(before.FeedOf(key), after.FeedOf(key)))
    && (forall day :: before.BatchesOf(day) <= after.BatchesOf(day))
    && (forall day, b :: b in after.BatchesOf(day) && b !in before.BatchesOf(day) ==>
          RunKey(b.owner, day) in touched || !before.Idle(RunKey(b.owner, day)))
    && before.histories <= after.histories
  }

  lemma {:induction false} EvolvedSelf(env: Env)
    ensures Evolved(env, env, {})
  {
  }

  lemma {:induction false} MoveEvolves(catalogue: Catalogue, honest: bool, env: Env, move: Move)
    ensures Evolved(env, Moved(catalogue, honest, env, move), {})
  {
    var after := Moved(catalogue, honest, env, move);
    if move.Register? {
      forall day ensures env.BatchesOf(day) <= after.BatchesOf(day) {}
    } else {
      assert forall day :: after.BatchesOf(day) == env.BatchesOf(day);
    }
  }

  lemma {:induction false} MoveKeepsWorld(catalogue: Catalogue, honest: bool, env: Env, move: Move)
    ensures Known(catalogue, env) ==> Known(catalogue, Moved(catalogue, honest, env, move))
    ensures honest && Honest(catalogue, env) ==> Honest(catalogue, Moved(catalogue, honest, env, move))
  {
    var after := Moved(catalogue, honest, env, move);
    MoveEvolves(catalogue, honest, env, move);
    if honest && Honest(catalogue, env) {
      forall key | key in after.runs && key.dag.Relational() && after.runs[key] != Run.Active
        ensures AllEnded(catalogue, after.BatchesOf(key.day), key.dag)
      {
        assert env.BatchesOf(key.day) <= after.BatchesOf(key.day);
        assert AllEnded(catalogue, env.BatchesOf(key.day), key.dag);
      }
    }
  }

  lemma {:induction false} EvolvedChain(a: Env, b: Env, c: Env, some: set<RunKey>, more: set<RunKey>)
    requires Evolved(a, b, some) && Evolved(b, c, more)
    ensures Evolved(a, c, some + more)
  {
    forall key | key in a.runs && key !in some + more && a.runs[key] != Run.Active
      ensures c.RunOf(key) == a.RunOf(key) && Improved(a.FeedOf(key), c.FeedOf(key))
    {
      assert b.RunOf(key) == a.RunOf(key) && key in b.runs;
      assert Improved(b.FeedOf(key), c.FeedOf(key));
    }
    forall day ensures a.BatchesOf(day) <= c.BatchesOf(day) {
      assert a.BatchesOf(day) <= b.BatchesOf(day) <= c.BatchesOf(day);
    }
    forall day, batch | batch in c.BatchesOf(day) && batch !in a.BatchesOf(day)
      ensures RunKey(batch.owner, day) in some + more || !a.Idle(RunKey(batch.owner, day))
    {
      if batch !in b.BatchesOf(day) {
        assert RunKey(batch.owner, day) in more || !b.Idle(RunKey(batch.owner, day));
      }
    }
  }

  // ---------------------------------------------------------------- what the backfill did

  /** What an invocation did, with what the registry held for the days it was about and which runs were going at that
      moment; and where it began its range and where it ended with success. */
  datatype Action =
    | Began(start: int, running: set<RunKey>)
    | Ticked(day: int, batches: set<Batch>, left: set<Batch>, running: set<RunKey>)
    | Delivered(day: int)
    | Triggered(dag: Dag, day: int, batches: set<Batch>, running: set<RunKey>)
    | Built
    | Passed(end: int)

  function Running(env: Env): set<RunKey> {
    set key | key in env.runs && env.runs[key].Active?
  }

  /** A tick to a day, as it stands when it happens: `left` is the day the source leaves. */
  function TickTo(env: Env, day: int): Action {
    Ticked(day, env.BatchesOf(day), env.BatchesOf(day - 1), Running(env))
  }

  function TriggerOf(env: Env, key: RunKey): Action {
    Triggered(key.dag, key.day, env.BatchesOf(key.day), Running(env))
  }

  /** The day the source has reached: the anchor, and one day for every tick. */
  function SourceAt(anchor: int, log: seq<Action>): int {
    if log == [] then anchor
    else SourceAt(anchor, log[..|log| - 1]) + if log[|log| - 1].Ticked? then 1 else 0
  }

  lemma {:induction false} SourceNeverBeforeAnchor(anchor: int, log: seq<Action>)
    ensures SourceAt(anchor, log) >= anchor
  {
    if log != [] {
      SourceNeverBeforeAnchor(anchor, log[..|log| - 1]);
    }
  }

  predicate LastTriggered(log: seq<Action>, dag: Dag, day: int) {
    log != [] && var last := log[|log| - 1]; last.Triggered? && last.dag == dag && last.day == day
  }

  /** None of these runs is an extraction of the day. */
  predicate NoneOf(running: set<RunKey>, day: int) {
    forall key :: key in running && key.dag.Relational() ==> key.day != day
  }

  /** The invocation that is on, as it began, until its first tick. */
  function Opening(log: seq<Action>): Option<Action> {
    if log == [] then None
    else if log[|log| - 1].Began? then Some(log[|log| - 1])
    else if log[|log| - 1].Ticked? || log[|log| - 1].Passed? then None
    else Opening(log[..|log| - 1])
  }

  /** A tick to this day is the first of an invocation that begins with the day, and each extraction of the day before
      that is going was going when it began. */
  predicate FirstOfItsRange(log: seq<Action>, day: int, running: set<RunKey>) {
    var opening := Opening(log);
    && opening.Some? && opening.value.Began? && opening.value.start == day
    && forall key :: key in running && key.dag.Relational() && key.day == day - 1 ==> key in opening.value.running
  }

  /** A tick moved the source off the run's day while the run was going. */
  predicate Stranded(log: seq<Action>, key: RunKey) {
    exists i :: 0 <= i < |log| && log[i].Ticked? && log[i].day == key.day + 1 && key in log[i].running
  }

  /** What every action must find. A tick goes one day on, to a day the registry does not call extracted; the day it
      leaves has ended with no failed batch outstanding, unless the tick is an invocation's first and to the day its
      range begins with; and an extraction going at a tick was left behind by that very tick or by an earlier one. What
      third parties send on a day was delivered before any run of it, the FX history aside; the sanctions list is
      fetched on Mondays and the macro series on the fifteenth. An extraction is triggered
      with the source at exactly its day and only while the registry does not call it complete, and core banking, while
      reference data is not complete, only right after a reference run that has ended. An invocation that directly
      follows one that succeeded finds no extraction of that one's last day going. */
  predicate SafeStep(anchor: int, before: seq<Action>, action: Action) {
    var source := SourceAt(anchor, before);
    match action
    case Began(_, running) => before != [] && before[|before| - 1].Passed? ==> NoneOf(running, before[|before| - 1].end)
    case Ticked(day, batches, left, running) =>
      && day > anchor && day == source + 1 && !BothComplete(batches)
      && ((Outstanding(left) == {} && NoneOf(running, source)) || FirstOfItsRange(before, day, running))
      && (forall key :: key in running && key.dag.Relational() ==> key.day == source || Stranded(before, key))
    case Delivered(day) => day <= source
    case Triggered(dag, day, batches, running) =>
      && day <= source && (Delivered(day) in before || (dag == Fx && day == anchor - 1))
      && (dag == Sanctions ==> day % 7 == 1) && (dag == Macro ==> day >= 1 && Calendar.DateOf(day).day == 15)
      && (dag.Relational() ==> !RelationalComplete(batches, dag) && day == source)
      && (dag == Core && !RelationalComplete(batches, Reference) ==>
            LastTriggered(before, Reference, day) && RunKey(Reference, day) !in running)
    case Built => true
    case Passed(_) => true
  }

  predicate Safe(anchor: int, log: seq<Action>) {
    log == [] || (Safe(anchor, log[..|log| - 1]) && SafeStep(anchor, log[..|log| - 1], log[|log| - 1]))
  }

  lemma {:induction false} SafeAppend(anchor: int, log: seq<Action>, action: Action)
    requires Safe(anchor, log) && SafeStep(anchor, log, action)
    ensures Safe(anchor, log + [action])
    ensures SourceAt(anchor, log + [action]) == SourceAt(anchor, log) + if action.Ticked? then 1 else 0
  {
    assert (log + [action])[..|log|] == log;
  }

  /** A safe log is safe at every one of its actions. */
  lemma {:induction false} SafeEverywhere(anchor: int, log: seq<Action>, i: nat)
    requires Safe(anchor, log) && i < |log|
    ensures SafeStep(anchor, log[..i], log[i])
  {
    if i < |log| - 1 {
      SafeEverywhere(anchor, log[..|log| - 1], i);
      assert log[..|log| - 1][..i] == log[..i];
    }
  }

  predicate NoneRelational(running: set<RunKey>) {
    forall key :: key in running ==> !key.dag.Relational()
  }

  /** No extraction was running when the source moved on. */
  ghost predicate TicksAlone(log: seq<Action>) {
    forall i :: 0 <= i < |log| && log[i].Ticked? ==> NoneRelational(log[i].running)
  }

  /** The guard: an invocation whose range begins the day after the source's finds no extraction of the source's day
      going. */
  ghost predicate Guarded(anchor: int, log: seq<Action>) {
    forall i :: 0 <= i < |log| && log[i].Began? && log[i].start == SourceAt(anchor, log[..i]) + 1 ==>
      NoneOf(log[i].running, log[i].start - 1)
  }

  /** The source stands where it stood when the invocation that is on began. */
  lemma {:induction false} OpeningIsLogged(anchor: int, log: seq<Action>) returns (i: nat)
    requires Opening(log).Some?
    ensures i < |log| && log[i] == Opening(log).value && log[i].Began?
    ensures SourceAt(anchor, log[..i]) == SourceAt(anchor, log)
  {
    if log[|log| - 1].Began? {
      i := |log| - 1;
    } else {
      i := OpeningIsLogged(anchor, log[..|log| - 1]);
      assert log[..|log| - 1][..i] == log[..i];
    }
  }

  /** The guard is enough: in a safe log in which it held of every invocation, the source never moved under a running
      extraction. */
  lemma {:induction false} GuardedTicksAlone(anchor: int, log: seq<Action>)
    requires Safe(anchor, log) && Guarded(anchor, log)
    ensures TicksAlone(log)
  {
    if log != [] {
      var before, last := log[..|log| - 1], log[|log| - 1];
      forall i | 0 <= i < |before| && before[i].Began? && before[i].start == SourceAt(anchor, before[..i]) + 1
        ensures NoneOf(before[i].running, before[i].start - 1)
      {
        assert before[..i] == log[..i];
      }
      GuardedTicksAlone(anchor, before);
      if last.Ticked? {
        GuardedTickIsAlone(anchor, before, last);
      }
    }
  }

  lemma {:induction false} GuardedTickIsAlone(anchor: int, before: seq<Action>, tick: Action)
    requires Guarded(anchor, before) && TicksAlone(before) && tick.Ticked? && SafeStep(anchor, before, tick)
    ensures NoneRelational(tick.running)
  {
    var source := SourceAt(anchor, before);
    assert NoneOf(tick.running, source) by {
      if Opening(before).Some? {
        var i := OpeningIsLogged(anchor, before);
        assert before[i].start == source + 1 ==> NoneOf(before[i].running, source);
      }
    }
    assert forall key :: key in tick.running && key.dag.Relational() ==> key.day == source || Stranded(before, key);
  }

  /** What an invocation is asked for, and the day it is asked on. */
  datatype Range = Range(start: int, end: int, today: int) {
    predicate Refused() {
      end < start || end > today
    }
  }

  /** One invocation was logged: it begins, and it is marked a success exactly when it returns zero. A range that is
      refused does nothing. */
  ghost predicate Invocation(range: Range, ended: Ended<int>, before: seq<Action>, after: seq<Action>) {
    if range.Refused() then ended == Raised && after == before
    else
      && before < after && after[|before|].Began? && after[|before|].start == range.start
      && (if ended == Returned(0)
          then
            && |before| + 1 < |after| && after[|after| - 1] == Passed(range.end)
            && Unmarked(after[|before| + 1..|after| - 1])
          else Unmarked(after[|before| + 1..]))
  }

  /** Nothing of this begins or ends an invocation. */
  ghost predicate Unmarked(actions: seq<Action>) {
    forall i :: 0 <= i < |actions| ==> !actions[i].Began? && !actions[i].Passed?
  }

  /** The log has only grown, by what a working invocation logs. */
  ghost predicate Worked(before: seq<Action>, after: seq<Action>) {
    before <= after && Unmarked(after[|before|..])
  }

  lemma {:induction false} WorkedChain(a: seq<Action>, b: seq<Action>, c: seq<Action>)
    requires Worked(a, b) && Worked(b, c)
    ensures Worked(a, c)
  {
    assert c[|a|..] == b[|a|..] + c[|b|..];
  }

  // ---------------------------------------------------------------- what is known of a day

  ghost predicate RelationalIdle(env: Env, day: int) {
    env.Idle(RunKey(Reference, day)) && env.Idle(RunKey(Core, day))
  }

  /** The registry and the runs call a day finished. */
  ghost predicate DayComplete(env: Env, day: int)
    requires day >= 1
  {
    && RelationalIdle(env, day)
    && BothComplete(env.BatchesOf(day))
    && forall dag :: dag in FeedsDue(day) ==> FeedDone(env, RunKey(dag, day))
  }

  predicate FeedDone(env: Env, key: RunKey) {
    env.Idle(key) && FeedComplete(env.RunOf(key), env.FeedOf(key))
  }

  lemma {:induction false} EvolutionKeepsFeed(a: Env, b: Env, touched: set<RunKey>, key: RunKey)
    requires Evolved(a, b, touched) && key !in touched && FeedDone(a, key)
    ensures FeedDone(b, key)
  {
    ImprovementKeepsComplete(a.RunOf(key), a.FeedOf(key), b.FeedOf(key));
  }

  lemma {:induction false} EvolutionKeepsIdle(a: Env, b: Env, touched: set<RunKey>, key: RunKey)
    requires Evolved(a, b, touched) && key !in touched && a.Idle(key)
    ensures b.Idle(key)
  {
  }

  lemma {:induction false} EvolutionKeepsDay(a: Env, b: Env, touched: set<RunKey>, day: int)
    requires day >= 1 && Evolved(a, b, touched) && DayComplete(a, day)
    requires forall key :: key in touched ==> key.day != day
    ensures DayComplete(b, day)
  {
    EvolutionKeepsIdle(a, b, touched, RunKey(Reference, day));
    EvolutionKeepsIdle(a, b, touched, RunKey(Core, day));
    GrowthKeepsComplete(a.BatchesOf(day), b.BatchesOf(day), Reference);
    GrowthKeepsComplete(a.BatchesOf(day), b.BatchesOf(day), Core);
    forall dag | dag in FeedsDue(day) ensures FeedDone(b, RunKey(dag, day)) {
      EvolutionKeepsFeed(a, b, touched, RunKey(dag, day));
    }
  }

  /** An extraction's own registrations stand while it is at rest and nothing touches it. */
  lemma {:induction false} RegisteredStands(a: Env, b: Env, touched: set<RunKey>, key: RunKey)
    requires Evolved(a, b, touched) && key !in touched && a.Idle(key) && key.dag.Relational()
    ensures RelationalComplete(b.BatchesOf(key.day), key.dag) <==> RelationalComplete(a.BatchesOf(key.day), key.dag)
  {
    var before, after := a.BatchesOf(key.day), b.BatchesOf(key.day);
    forall e ensures e in RegisteredEntities(after, key.dag) <==> e in RegisteredEntities(before, key.dag) {
      if e in RegisteredEntities(after, key.dag) {
        var batch :| batch in after && batch.registered && batch.owner == key.dag && batch.entity == e;
        assert batch in before;
      }
    }
    assert RegisteredEntities(after, key.dag) == RegisteredEntities(before, key.dag);
  }

  /** The day's extractions are at rest, and no failed batch of theirs is outstanding. */
  ghost predicate DoneWith(env: Env, day: int) {
    RelationalIdle(env, day) && Outstanding(env.BatchesOf(day)) == {}
  }

  lemma {:induction false} EvolutionKeepsDone(
    catalogue: Catalogue, a: Env, b: Env, touched: set<RunKey>, day: int)
    requires Evolved(a, b, touched) && Known(catalogue, b) && DoneWith(a, day)
    requires forall key :: key in touched ==> !key.dag.Relational() || key.day != day
    ensures DoneWith(b, day) && b.BatchesOf(day) == a.BatchesOf(day)
  {
    EvolutionKeepsIdle(a, b, touched, RunKey(Reference, day));
    EvolutionKeepsIdle(a, b, touched, RunKey(Core, day));
    assert catalogue.Knows(b.BatchesOf(day));
    forall batch | batch in b.BatchesOf(day) ensures batch in a.BatchesOf(day) {
      assert batch.owner.Relational();
    }
  }

  /** A run that is going was going already, unless it was touched. */
  lemma {:induction false} StillRunning(a: Env, b: Env, touched: set<RunKey>, key: RunKey)
    requires Evolved(a, b, touched) && key !in touched && key in Running(b)
    ensures key in Running(a)
  {
    assert key in a.runs && (a.runs[key] != Run.Active ==> b.RunOf(key) == a.RunOf(key));
  }

  /** Every extraction still going reads the day the source is at, or was going when the source left its day. */
  ghost predicate Accounted(env: Env, simulated: int, log: seq<Action>) {
    forall key :: key in Running(env) && key.dag.Relational() ==> key.day == simulated || Stranded(log, key)
  }

  /** Once an invocation has succeeded, no extraction of its last day is going until the next one begins. */
  ghost predicate AtRestAfterSuccess(env: Env, log: seq<Action>) {
    log != [] && log[|log| - 1].Passed? ==> RelationalIdle(env, log[|log| - 1].end)
  }

  lemma {:induction false} EvolutionKeepsRecord(a: Env, b: Env, simulated: int, log: seq<Action>)
    requires Evolved(a, b, {}) && Accounted(a, simulated, log) && AtRestAfterSuccess(a, log)
    ensures Accounted(b, simulated, log) && AtRestAfterSuccess(b, log)
  {
    forall key | key in Running(b) && key.dag.Relational() ensures key.day == simulated || Stranded(log, key) {
      StillRunning(a, b, {}, key);
    }
    if log != [] && log[|log| - 1].Passed? {
      EvolutionKeepsIdle(a, b, {}, RunKey(Reference, log[|log| - 1].end));
      EvolutionKeepsIdle(a, b, {}, RunKey(Core, log[|log| - 1].end));
    }
  }

  /** What was going when the source left its day is remembered. */
  lemma {:induction false} AccountedFurther(env: Env, simulated: int, log: seq<Action>, action: Action)
    requires Accounted(env, simulated, log) && !action.Ticked?
    ensures Accounted(env, simulated, log + [action])
  {
    var longer := log + [action];
    forall key | key in Running(env) && key.dag.Relational() && key.day != simulated ensures Stranded(longer, key) {
      var i :| 0 <= i < |log| && log[i].Ticked? && log[i].day == key.day + 1 && key in log[i].running;
      assert longer[i] == log[i];
    }
  }

  /** A tick strands what was reading the day it leaves. */
  lemma {:induction false} AccountedAfterTick(env: Env, simulated: int, log: seq<Action>)
    requires Accounted(env, simulated, log)
    ensures Accounted(env, simulated + 1, log + [TickTo(env, simulated + 1)])
  {
    var longer := log + [TickTo(env, simulated + 1)];
    forall key | key in Running(env) && key.dag.Relational() ensures key.day == simulated + 1 || Stranded(longer, key) {
      if key.day == simulated {
        assert longer[|log|].day == key.day + 1 && key in longer[|log|].running;
      } else {
        var i :| 0 <= i < |log| && log[i].Ticked? && log[i].day == key.day + 1 && key in log[i].running;
        assert longer[i] == log[i];
      }
    }
  }

  /** The source may be ticked to a day: it is not the next one, or the day before is done with, or the tick would be
      the first of a range that begins with it. */
  ghost predicate MayLeave(env: Env, simulated: int, log: seq<Action>, day: int) {
    day == simulated + 1 ==> DoneWith(env, simulated) || FirstOfItsRange(log, day, Running(env))
  }

  lemma {:induction false} EvolutionKeepsLeave(
    catalogue: Catalogue, a: Env, b: Env, touched: set<RunKey>, simulated: int, log: seq<Action>, day: int)
    requires Evolved(a, b, touched) && Known(catalogue, b) && MayLeave(a, simulated, log, day)
    requires forall key :: key in touched ==> !key.dag.Relational()
    ensures MayLeave(b, simulated, log, day)
  {
    if day == simulated + 1 {
      if DoneWith(a, simulated) {
        EvolutionKeepsDone(catalogue, a, b, touched, simulated);
      } else {
        forall key | key in Running(b) && key.dag.Relational() ensures key in Running(a) {
          StillRunning(a, b, touched, key);
        }
      }
    }
  }

  /** Starting or clearing a run touches that run alone. */
  lemma {:induction false} StartEvolves(catalogue: Catalogue, env: Env, key: RunKey)
    ensures Evolved(env, env.Starting(key), {key})
    ensures Known(catalogue, env) ==> Known(catalogue, env.Starting(key))
    ensures Honest(catalogue, env) ==> Honest(catalogue, env.Starting(key))
    ensures Running(env.Starting(key)) == Running(env) + {key}
  {
    var after := env.Starting(key);
    assert forall day :: after.BatchesOf(day) == env.BatchesOf(day);
    assert forall other :: after.FeedOf(other) == env.FeedOf(other);
  }

  // ---------------------------------------------------------------- the world

  /** From the day before the earliest business day, through the day before the anchor. */
  function HistoryRange(earliest: int, anchor: int): Option<(int, int)> {
    if earliest - 1 <= anchor - 1 then Some((earliest - 1, anchor - 1)) else None
  }

  /** The FX history is landed, or there is none to land. */
  predicate HistoryDone(anchor: int, earliest: Option<int>, env: Env) {
    earliest.None? || HistoryRange(earliest.value, anchor).None? || earliest.value - 1 in env.histories
  }

  /** The second assumption completeness rests on: an FX history run that ended without failures registered a batch from
      the history's first day. */
  predicate HistoryHonest(anchor: int, earliest: Option<int>, env: Env) {
    FeedDone(env, RunKey(Fx, anchor - 1)) ==> HistoryDone(anchor, earliest, env)
  }

  lemma {:induction false} StartKeepsHistory(anchor: int, earliest: Option<int>, env: Env, key: RunKey)
    ensures HistoryHonest(anchor, earliest, env) ==> HistoryHonest(anchor, earliest, env.Starting(key))
  {
  }

  // ---------------------------------------------------------------- when nothing disturbs the world

  /** Nothing about the extractions of any other day has changed. */
  ghost predicate Elsewhere(a: Env, b: Env, day: int) {
    && (forall d :: d != day ==> b.BatchesOf(d) == a.BatchesOf(d))
    && (forall key: RunKey :: key.dag.Relational() && key.day != day ==> b.RunOf(key) == a.RunOf(key))
  }

  /** Nothing about any day's extractions has changed. */
  ghost predicate SameExtractions(a: Env, b: Env) {
    && (forall d :: b.BatchesOf(d) == a.BatchesOf(d))
    && (forall key: RunKey :: key.dag.Relational() ==> b.RunOf(key) == a.RunOf(key))
  }

  lemma {:induction false} ElsewhereChain(a: Env, b: Env, c: Env, day: int)
    requires (Elsewhere(a, b, day) || SameExtractions(a, b)) && (Elsewhere(b, c, day) || SameExtractions(b, c))
    ensures Elsewhere(a, c, day)
  {
  }

  lemma {:induction false} SameExtractionsChain(a: Env, b: Env, c: Env)
    requires SameExtractions(a, b) && SameExtractions(b, c)
    ensures SameExtractions(a, c)
  {
  }

  /** What a run that ends well does: it registers what it was to, and no other day's extractions change. */
  lemma {:induction false} CompletedEvolves(catalogue: Catalogue, env: Env, key: RunKey, history: set<int>)
    requires !env.Idle(key)
    ensures Evolved(env, env.Completed(catalogue, key, history), {})
    ensures Known(catalogue, env) ==> Known(catalogue, env.Completed(catalogue, key, history))
    ensures Honest(catalogue, env) ==> Honest(catalogue, env.Completed(catalogue, key, history))
  {
    var after := env.Completed(catalogue, key, history);
    forall day ensures env.BatchesOf(day) <= after.BatchesOf(day) {}
    if Honest(catalogue, env) {
      forall other | other in after.runs && other.dag.Relational() && after.runs[other] != Run.Active
        ensures AllEnded(catalogue, after.BatchesOf(other.day), other.dag)
      {
        if other != key {
          assert AllEnded(catalogue, env.BatchesOf(other.day), other.dag);
          assert env.BatchesOf(other.day) <= after.BatchesOf(other.day);
        }
      }
    }
  }

  lemma {:induction false} CompletedIsComplete(catalogue: Catalogue, env: Env, key: RunKey, history: set<int>)
    requires catalogue.Sound() && key.dag.Relational()
    ensures RelationalComplete(env.Completed(catalogue, key, history).BatchesOf(key.day), key.dag)
  {
    var batches := env.Completed(catalogue, key, history).BatchesOf(key.day);
    var registered := RegisteredEntities(batches, key.dag);
    forall e | e in catalogue.Of(key.dag) ensures e in registered {
      assert Batch(key.dag, e, true) in batches;
    }
    assert registered == catalogue.Of(key.dag) + (registered - catalogue.Of(key.dag));
  }

  lemma {:induction false} CompletedStaysInItsDay(catalogue: Catalogue, env: Env, key: RunKey, history: set<int>)
    ensures Elsewhere(env, env.Completed(catalogue, key, history), key.day)
    ensures !key.dag.Relational() ==>
              FeedDone(env.Completed(catalogue, key, history), key)
                && SameExtractions(env, env.Completed(catalogue, key, history))
  {
  }

  class World {
    const anchor: int
    const earliest: Option<int>
    const catalogue: Catalogue
    const honest: bool
    /** Nothing disturbs the world: no call raises or is killed, and a run that is waited for ends well. */
    const calm: bool
    var simulated: int
    var env: Env
    var log: seq<Action>
    var paused: bool
    var record: Option<bool>

    /** A freshly seeded stack: the source is at the anchor, nothing has run, and the backfill has done nothing. */
    constructor (anchor: int, earliest: Option<int>, catalogue: Catalogue, honest: bool, calm: bool, paused: bool)
      requires catalogue.Sound()
      ensures Valid() && this.anchor == anchor == simulated && this.earliest == earliest
      ensures this.honest == honest && this.calm == calm
      ensures env == Env(map[], map[], map[], {}) && log == [] && record == None && this.paused == paused
    {
      this.anchor, this.earliest, this.catalogue, this.honest, this.calm := anchor, earliest, catalogue, honest, calm;
      this.simulated, this.log, this.paused, this.record := anchor, [], paused, None;
      this.env := Env(map[], map[], map[], {});
    }

    ghost predicate Valid()
      reads this
    {
      && catalogue.Sound() && Known(catalogue, env)
      && (honest ==> Honest(catalogue, env) && HistoryHonest(anchor, earliest, env))
      && simulated == SourceAt(anchor, log) && Safe(anchor, log)
      && Accounted(env, simulated, log) && AtRestAfterSuccess(env, log)
    }

    /** One move of the world; one that its assumptions exclude does not happen. */
    method Step(move: Move)
      requires Valid()
      modifies this`env
      ensures Valid() && Evolved(old(env), env, {})
    {
      var next := Moved(catalogue, honest, env, move);
      EvolvedSelf(env);
      MoveEvolves(catalogue, honest, env, move);
      MoveKeepsWorld(catalogue, honest, env, move);
      EvolutionKeepsRecord(env, next, simulated, log);
      if !honest || HistoryHonest(anchor, earliest, next) {
        env := next;
      }
    }

    /** Any number of moves may happen before a call is answered, and the call itself may raise or be the process's
        last. */
    method Reach() returns (r: Ended<()>)
      requires Valid()
      modifies this`env
      ensures Valid() && Evolved(old(env), env, {})
      ensures calm ==> r.Returned? && env == old(env)
    {
      EvolvedSelf(env);
      if calm {
        return Returned(());
      }
      var moves: seq<Move> := *;
      for i := 0 to |moves|
        invariant Valid() && Evolved(old(env), env, {})
      {
        ghost var before := env;
        Step(moves[i]);
        EvolvedChain(old(env), before, env, {}, {});
      }
      var fate := AnyFate();
      r := if fate.Happens? then Returned(()) else if fate.Fails? then Raised else Killed;
    }

    function History(key: RunKey): set<int> {
      if key == RunKey(Fx, anchor - 1) && earliest.Some? then {earliest.value - 1} else {}
    }

    /** What waiting for a run comes to when nothing disturbs the world. */
    function Waited(before: Env, key: RunKey): Env {
      if before.Idle(key) then before else before.Completed(catalogue, key, History(key))
    }

    method Complete(key: RunKey)
      requires Valid()
      modifies this`env
      ensures Valid() && Evolved(old(env), env, {}) && env == Waited(old(env), key) && env.Idle(key)
    {
      EvolvedSelf(env);
      if !env.Idle(key) {
        CompletedEvolves(catalogue, env, key, History(key));
        EvolutionKeepsRecord(env, env.Completed(catalogue, key, History(key)), simulated, log);
        env := env.Completed(catalogue, key, History(key));
      }
    }
  }
}
