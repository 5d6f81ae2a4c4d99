/** The backfill: a day-by-day loop that ticks the source, ingests the day, and can be killed and invoked again
    anywhere. */
module Backfill {
  import opened Rows
  import opened Endings
  import opened Registry
  import opened Stack
  import Calendar

  datatype Need = Tick | Stay | Refuse

  /** Whether to tick the source to a day before working on it, or refuse. */
  function TickNeeded(day: int, simulated: int, anchor: int, pending: bool): Need {
    if day > anchor && simulated == day - 1 then if pending then Tick else Refuse
    else if simulated == day || (simulated > day && !pending) then Stay
    else Refuse
  }

  function Pending(batches: set<Batch>): (pending: seq<Dag>)
    ensures forall dag :: dag in pending <==> dag.Relational() && !RelationalComplete(batches, dag)
    ensures |pending| == 2 ==> pending == [Reference, Core]
    ensures |pending| <= 2
  {
    (if RelationalComplete(batches, Reference) then [] else [Reference])
    + (if RelationalComplete(batches, Core) then [] else [Core])
  }

  // ---------------------------------------------------------------- the calls the loop makes

  function Keys(dags: seq<Dag>, day: int): set<RunKey> {
    set dag | dag in dags :: RunKey(dag, day)
  }

  /** Waits until a run has ended; giving up on it raises. */
  method WaitFor(w: World, key: RunKey) returns (r: Ended<()>)
    requires w.Valid()
    modifies w`env
    ensures w.Valid() && Evolved(old(w.env), w.env, {})
    ensures r.Returned? ==> w.env.Idle(key)
    ensures w.calm ==> r.Returned? && w.env == w.Waited(old(w.env), key)
  {
    var _ :- w.Reach();
    ghost var reached := w.env;
    EvolvedSelf(reached);
    if w.calm {
      w.Complete(key);
      EvolvedChain(old(w.env), reached, w.env, {}, {});
    }
    return if w.env.Idle(key) then Returned(()) else Raised;
  }

  /** How many of the day's runs have been waited for. */
  ghost predicate SettledUpTo(w: World, before: Env, dags: seq<Dag>, day: int, i: nat)
    requires i <= |dags|
    reads w
  {
    && w.Valid() && Evolved(before, w.env, {}) && (forall j :: 0 <= j < i ==> w.env.Idle(RunKey(dags[j], day)))
    && (w.calm ==> Elsewhere(before, w.env, day) && (RelationalIdle(before, day) ==> SameExtractions(before, w.env)))
  }

  /** Waiting for a run of the day leaves the other days as they were, and the day too once its extractions were at
      rest. */
  lemma {:induction false} WaitingStaysInItsDay(w: World, before: Env, start: Env, key: RunKey)
    requires Elsewhere(before, start, key.day) && (RelationalIdle(before, key.day) ==> SameExtractions(before, start))
    ensures Elsewhere(before, w.Waited(start, key), key.day)
    ensures RelationalIdle(before, key.day) ==> SameExtractions(before, w.Waited(start, key))
  {
    CompletedStaysInItsDay(w.catalogue, start, key, w.History(key));
    ElsewhereChain(before, start, w.Waited(start, key), key.day);
  }

  method SettleNext(w: World, ghost before: Env, dags: seq<Dag>, day: int, i: nat) returns (r: Ended<()>)
    requires i < |dags| && SettledUpTo(w, before, dags, day, i)
    modifies w`env
    ensures w.Valid() && Evolved(before, w.env, {})
    ensures r.Returned? ==> SettledUpTo(w, before, dags, day, i + 1)
    ensures w.calm ==> r.Returned?
  {
    ghost var start := w.env;
    var key := RunKey(dags[i], day);
    r := WaitFor(w, key);
    EvolvedChain(before, start, w.env, {}, {});
    forall j | 0 <= j < i ensures w.env.Idle(RunKey(dags[j], day)) {
      EvolutionKeepsIdle(start, w.env, {}, RunKey(dags[j], day));
    }
    if w.calm {
      WaitingStaysInItsDay(w, before, start, key);
    }
  }

  /** Waits for runs of the day an earlier invocation left going. */
  method SettleRuns(w: World, dags: seq<Dag>, day: int) returns (r: Ended<()>)
    requires w.Valid()
    modifies w`env
    ensures w.Valid() && Evolved(old(w.env), w.env, {})
    ensures r.Returned? ==> forall dag :: dag in dags ==> w.env.Idle(RunKey(dag, day))
    ensures w.calm ==> r.Returned? && Elsewhere(old(w.env), w.env, day)
    ensures w.calm && old(RelationalIdle(w.env, day)) ==> SameExtractions(old(w.env), w.env)
  {
    ghost var before := w.env;
    EvolvedSelf(w.env);
    for i := 0 to |dags|
      invariant SettledUpTo(w, before, dags, day, i)
    {
      var _ :- SettleNext(w, before, dags, day, i);
    }
    return Returned(());
  }

  /** Whether a call's effect takes place, and how the call then ends. */
  method Effect(calm: bool) returns (takes: bool, r: Ended<()>)
    ensures r.Returned? ==> takes
    ensures calm ==> r.Returned?
  {
    var fate := AnyFate();
    takes := *;
    if calm {
      return true, Returned(());
    }
    match fate
    case Happens => takes, r := true, Returned(());
    case Fails => r := Raised;
    case KilledBefore => takes, r := false, Killed;
    case KilledAfter => takes, r := true, Killed;
  }

  /** A run may be started once what third parties send that day was delivered; the FX history needs nothing sent. */
  predicate Sendable(anchor: int, log: seq<Action>, key: RunKey) {
    Delivered(key.day) in log || (key.dag == Fx && key.day == anchor - 1)
  }

  /** A weekly or monthly feed runs on its own days. */
  predicate OnItsDay(key: RunKey) {
    && (key.dag == Sanctions ==> key.day % 7 == 1)
    && (key.dag == Macro ==> key.day >= 1 && Calendar.DateOf(key.day).day == 15)
  }

  /** Every feed of the list is due on the day. */
  predicate AllDue(feeds: seq<Dag>, day: int) {
    day >= 1 && forall dag :: dag in feeds ==> dag in FeedsDue(day)
  }

  /** Which is when it is due. */
  lemma {:induction false} DueIsOnItsDay(feeds: seq<Dag>, day: int, dag: Dag)
    requires AllDue(feeds, day) && dag in feeds
    ensures OnItsDay(RunKey(dag, day)) && !dag.Relational()
  {
    FeedsFallOnTheirDays(day);
  }

  lemma {:induction false} FeedsReadNoSource(feeds: seq<Dag>, day: int)
    requires AllDue(feeds, day)
    ensures forall dag :: dag in feeds ==> !dag.Relational()
  {
    forall dag | dag in feeds ensures !dag.Relational() {
      DueIsOnItsDay(feeds, day, dag);
    }
  }

  /** An extraction may be started at rest, with the source at its own day, while the registry does not call it
      complete; core banking, while reference data is not complete either, only once that was just tried and ended. */
  ghost predicate Startable(env: Env, simulated: int, log: seq<Action>, key: RunKey) {
    && OnItsDay(key)
    && (key.dag.Relational() ==>
          key.day == simulated && env.Idle(key) && !RelationalComplete(env.BatchesOf(key.day), key.dag))
    && (key.dag == Core && !RelationalComplete(env.BatchesOf(key.day), Reference) ==>
          LastTriggered(log, Reference, key.day) && env.Idle(RunKey(Reference, key.day)))
  }

  lemma {:induction false} StartableStands(a: Env, b: Env, simulated: int, log: seq<Action>, key: RunKey)
    requires Evolved(a, b, {}) && Startable(a, simulated, log, key)
    ensures Startable(b, simulated, log, key)
  {
    if key.dag.Relational() {
      EvolutionKeepsIdle(a, b, {}, key);
      RegisteredStands(a, b, {}, key);
    }
    if key.dag == Core && RelationalComplete(a.BatchesOf(key.day), Reference) {
      GrowthKeepsComplete(a.BatchesOf(key.day), b.BatchesOf(key.day), Reference);
    } else if key.dag == Core {
      EvolutionKeepsIdle(a, b, {}, RunKey(Reference, key.day));
    }
  }

  /** At most the start of this run was logged. */
  predicate LogsRun(before: seq<Action>, after: seq<Action>, key: RunKey) {
    after == before
    || (|after| == |before| + 1 && before <= after && LastTriggered(after, key.dag, key.day))
  }

  /** A run's start was logged with what the registry held for its day and with the runs that were going. */
  ghost predicate Shows(action: Action, env: Env, key: RunKey) {
    action.Triggered? && action.batches == env.BatchesOf(key.day) && action.running + {key} == Running(env)
  }

  lemma {:induction false} TriggerShows(env: Env, key: RunKey)
    ensures Shows(TriggerOf(env, key), env.Starting(key), key)
  {
    assert Running(env.Starting(key)) == Running(env) + {key};
  }

  /** Starts one run for one logical date, clearing it if it already exists. */
  method StartRun(w: World, key: RunKey) returns (r: Ended<()>)
    requires w.Valid() && key.day <= w.simulated && Sendable(w.anchor, w.log, key)
    requires Startable(w.env, w.simulated, w.log, key)
    modifies w`env, w`log
    ensures w.Valid() && Evolved(old(w.env), w.env, {key}) && LogsRun(old(w.log), w.log, key)
    ensures w.log != old(w.log) ==> Shows(w.log[|w.log| - 1], w.env, key)
    ensures r.Returned? ==> w.log != old(w.log) && key in w.env.runs
    ensures w.calm ==> r.Returned? && w.env == old(w.env.Starting(key))
  {
    var _ :- w.Reach();
    ghost var reached := w.env;
    StartableStands(old(w.env), reached, w.simulated, w.log, key);
    r := Trigger(w, key);
    TriggerShows(reached, key);
    EvolvedChain(old(w.env), reached, w.env, {}, {key});
    assert {} + {key} == {key};
  }

  /** The call that starts or clears the run, which may be killed before or after it has taken effect. */
  method Trigger(w: World, key: RunKey) returns (r: Ended<()>)
    requires w.Valid() && key.day <= w.simulated && Sendable(w.anchor, w.log, key)
    requires Startable(w.env, w.simulated, w.log, key)
    modifies w`env, w`log
    ensures w.Valid() && Evolved(old(w.env), w.env, {key})
    ensures if w.log == old(w.log) then w.env == old(w.env)
            else w.log == old(w.log) + [TriggerOf(old(w.env), key)] && w.env == old(w.env.Starting(key))
    ensures r.Returned? ==> w.log != old(w.log)
    ensures w.calm ==> r.Returned?
  {
    EvolvedSelf(w.env);
    var takes;
    takes, r := Effect(w.calm);
    if takes {
      StartIsRecorded(w, key);
      w.env, w.log := w.env.Starting(key), w.log + [TriggerOf(w.env, key)];
    }
  }

  lemma {:induction false} StartIsRecorded(w: World, key: RunKey)
    requires w.Valid() && key.day <= w.simulated && Sendable(w.anchor, w.log, key)
    requires Startable(w.env, w.simulated, w.log, key)
    ensures var after, longer := w.env.Starting(key), w.log + [TriggerOf(w.env, key)];
            && Evolved(w.env, after, {key}) && Known(w.catalogue, after)
            && (w.honest ==> Honest(w.catalogue, after) && HistoryHonest(w.anchor, w.earliest, after))
            && Safe(w.anchor, longer) && SourceAt(w.anchor, longer) == w.simulated
            && Accounted(after, w.simulated, longer)
  {
    StartEvolves(w.catalogue, w.env, key);
    StartKeepsHistory(w.anchor, w.earliest, w.env, key);
    SafeAppend(w.anchor, w.log, TriggerOf(w.env, key));
    AccountedFurther(w.env, w.simulated, w.log, TriggerOf(w.env, key));
  }

  /** What a tick does to the source and the log. */
  method Advance(w: World, day: int)
    requires w.Valid() && day > w.anchor && day == w.simulated + 1 && !BothComplete(w.env.BatchesOf(day))
    requires MayLeave(w.env, w.simulated, w.log, day)
    modifies w`log, w`simulated
    ensures w.Valid() && w.simulated == day && w.log == old(w.log) + [TickTo(w.env, day)]
  {
    TickIsRecorded(w, day);
    w.simulated, w.log := day, w.log + [TickTo(w.env, day)];
  }

  lemma {:induction false} TickIsRecorded(w: World, day: int)
    requires w.Valid() && day > w.anchor && day == w.simulated + 1 && !BothComplete(w.env.BatchesOf(day))
    requires MayLeave(w.env, w.simulated, w.log, day)
    ensures var longer := w.log + [TickTo(w.env, day)];
            Safe(w.anchor, longer) && SourceAt(w.anchor, longer) == day && Accounted(w.env, day, longer)
  {
    assert DoneWith(w.env, w.simulated) ==> NoneOf(Running(w.env), w.simulated);
    SafeAppend(w.anchor, w.log, TickTo(w.env, day));
    AccountedAfterTick(w.env, w.simulated, w.log);
  }

  /** Advances the simulation by exactly one day, to a day that is not extracted and has no extraction going. */
  method TickSource(w: World, day: int) returns (r: Ended<()>)
    requires w.Valid() && day > w.anchor && day == w.simulated + 1
    requires RelationalIdle(w.env, day) && !BothComplete(w.env.BatchesOf(day))
    requires MayLeave(w.env, w.simulated, w.log, day)
    modifies w`env, w`log, w`simulated
    ensures w.Valid() && Evolved(old(w.env), w.env, {})
    ensures if w.simulated == old(w.simulated) then w.log == old(w.log)
            else w.simulated == day && w.log == old(w.log) + [TickTo(w.env, day)]
    ensures r.Returned? ==> w.simulated == day
    ensures w.calm ==> r.Returned? && w.env == old(w.env)
  {
    var _ :- w.Reach();
    RegisteredStands(old(w.env), w.env, {}, RunKey(Reference, day));
    RegisteredStands(old(w.env), w.env, {}, RunKey(Core, day));
    EvolutionKeepsLeave(w.catalogue, old(w.env), w.env, {}, w.simulated, w.log, day);
    var takes;
    takes, r := Effect(w.calm);
    if takes {
      Advance(w, day);
    }
  }

  /** What third parties send on a day. */
  method Deliver(w: World, day: int) returns (r: Ended<()>)
    requires w.Valid() && day <= w.simulated
    modifies w`env, w`log
    ensures w.Valid() && Evolved(old(w.env), w.env, {})
    ensures w.log == old(w.log) || w.log == old(w.log) + [Delivered(day)]
    ensures r.Returned? ==> Delivered(day) in w.log
    ensures w.calm ==> r.Returned? && w.env == old(w.env)
  {
    var _ :- w.Reach();
    var takes;
    takes, r := Effect(w.calm);
    if takes {
      SafeAppend(w.anchor, w.log, Delivered(day));
      AccountedFurther(w.env, w.simulated, w.log, Delivered(day));
      w.log := w.log + [Delivered(day)];
    }
  }

  // ---------------------------------------------------------------- one day

  /** Touching the runs of a list of DAGs one by one touches the runs of the list. */
  lemma {:induction false} NextKey(a: Env, b: Env, c: Env, dags: seq<Dag>, i: nat, day: int)
    requires i < |dags| && Evolved(a, b, Keys(dags[..i], day)) && Evolved(b, c, {RunKey(dags[i], day)})
    ensures Evolved(a, c, Keys(dags[..i + 1], day)) && Evolved(a, c, Keys(dags, day))
  {
    assert Keys(dags[..i + 1], day) == Keys(dags[..i], day) + {RunKey(dags[i], day)};
    EvolvedChain(a, b, c, Keys(dags[..i], day), {RunKey(dags[i], day)});
  }

  /** Each of the runs has been started and has ended. */
  ghost predicate AllRan(env: Env, dags: seq<Dag>, day: int) {
    forall dag :: dag in dags ==> RunKey(dag, day) in env.runs && env.Idle(RunKey(dag, day))
  }

  lemma {:induction false} NextRan(a: Env, b: Env, dags: seq<Dag>, i: nat, day: int)
    requires i < |dags| && dags[i] !in dags[..i] && AllRan(a, dags[..i], day) && Evolved(a, b, {RunKey(dags[i], day)})
    requires RunKey(dags[i], day) in b.runs && b.Idle(RunKey(dags[i], day))
    ensures AllRan(b, dags[..i + 1], day)
  {
    forall dag | dag in dags[..i] ensures RunKey(dag, day) in b.runs && b.Idle(RunKey(dag, day)) {
      EvolutionKeepsIdle(a, b, {RunKey(dags[i], day)}, RunKey(dag, day));
    }
    assert dags[..i + 1] == dags[..i] + [dags[i]];
  }

  /** The extractions left of a day none of whose extractions is going. */
  ghost predicate Left(env: Env, day: int, pending: seq<Dag>) {
    RelationalIdle(env, day) && pending == Pending(env.BatchesOf(day))
  }

  lemma {:induction false} LeftStands(a: Env, b: Env, day: int, pending: seq<Dag>)
    requires Evolved(a, b, {}) && Left(a, day, pending)
    ensures Left(b, day, pending)
  {
    EvolutionKeepsIdle(a, b, {}, RunKey(Reference, day));
    EvolutionKeepsIdle(a, b, {}, RunKey(Core, day));
    RegisteredStands(a, b, {}, RunKey(Reference, day));
    RegisteredStands(a, b, {}, RunKey(Core, day));
  }

  /** Since then runs of these DAGs were started, in their order, as far as it got, and nothing else was done. */
  predicate StartedInOrder(before: seq<Action>, after: seq<Action>, dags: seq<Dag>, day: int) {
    && before <= after && |after| <= |before| + |dags|
    && forall i :: |before| <= i < |after| ==>
        after[i].Triggered? && after[i].dag == dags[i - |before|] && after[i].day == day
  }

  lemma {:induction false} StartedNext(
    a: seq<Action>, b: seq<Action>, c: seq<Action>, dags: seq<Dag>, i: nat, day: int)
    requires i < |dags| && StartedInOrder(a, b, dags, day) && |b| == |a| + i && LogsRun(b, c, RunKey(dags[i], day))
    ensures StartedInOrder(a, c, dags, day) && (c != b ==> |c| == |a| + i + 1)
  {
    assert forall j :: 0 <= j < |b| ==> c[j] == b[j];
  }

  lemma {:induction false} StillDelivered(before: seq<Action>, after: seq<Action>, day: int)
    requires Delivered(day) in before && before <= after
    ensures Delivered(day) in after
  {
    var i :| 0 <= i < |before| && before[i] == Delivered(day);
    assert after[i] == before[i];
  }

  /** How far the day's extractions have got, from the world and the log they began with. */
  ghost predicate Extracted(
    before: Env, env: Env, log: seq<Action>, last: seq<Action>, calm: bool, day: int, pending: seq<Dag>, i: nat)
    requires i <= |pending|
  {
    && Evolved(before, env, Keys(pending[..i], day)) && AllRan(env, pending[..i], day)
    && StartedInOrder(log, last, pending, day) && |last| == |log| + i
    && (calm ==> Elsewhere(before, env, day) && AllComplete(env, pending[..i], day))
  }

  /** The next one pending may be started. */
  lemma {:induction false} NextIsStartable(
    before: Env, env: Env, log: seq<Action>, last: seq<Action>, day: int, pending: seq<Dag>, i: nat)
    requires i < |pending| && Left(before, day, pending)
    requires Evolved(before, env, Keys(pending[..i], day)) && AllRan(env, pending[..i], day)
    requires StartedInOrder(log, last, pending, day) && |last| == |log| + i
    ensures Startable(env, day, last, RunKey(pending[i], day))
  {
    var key, touched := RunKey(pending[i], day), Keys(pending[..i], day);
    assert pending[i] in pending;
    EvolutionKeepsIdle(before, env, touched, key);
    RegisteredStands(before, env, touched, key);
    if pending[i] == Core {
      if i == 0 {
        assert pending == [Core];
        GrowthKeepsComplete(before.BatchesOf(day), env.BatchesOf(day), Reference);
      } else {
        assert pending == [Reference, Core] && pending[..i] == [Reference];
        assert Reference in pending[..i];
      }
    }
  }

  /** Each of the relational DAGs of a list has registered everything for the day. */
  ghost predicate AllComplete(env: Env, dags: seq<Dag>, day: int) {
    forall dag: Dag :: dag in dags && dag.Relational() ==> RelationalComplete(env.BatchesOf(day), dag)
  }

  lemma {:induction false} NextComplete(a: Env, b: Env, dags: seq<Dag>, i: nat, day: int)
    requires i < |dags| && AllComplete(a, dags[..i], day) && RanCalmly(a, b, RunKey(dags[i], day))
    requires Evolved(a, b, {RunKey(dags[i], day)})
    ensures AllComplete(b, dags[..i + 1], day)
  {
    forall dag: Dag | dag in dags[..i + 1] && dag.Relational() ensures RelationalComplete(b.BatchesOf(day), dag) {
      if dag in dags[..i] {
        GrowthKeepsComplete(a.BatchesOf(day), b.BatchesOf(day), dag);
      } else {
        assert dag == dags[i];
      }
    }
  }

  /** One pending extraction, started and waited for. */
  method ExtractNext(
    w: World, ghost before: Env, ghost log: seq<Action>, day: int, pending: seq<Dag>, i: nat) returns (r: Ended<()>)
    requires w.Valid() && day == w.simulated
    requires i < |pending| && Extracted(before, w.env, log, w.log, w.calm, day, pending, i)
    requires Left(before, day, pending) && Delivered(day) in log
    modifies w`env, w`log
    ensures w.Valid() && Evolved(before, w.env, Keys(pending, day))
    ensures StartedInOrder(log, w.log, pending, day)
    ensures r.Returned? ==> Extracted(before, w.env, log, w.log, w.calm, day, pending, i + 1)
    ensures w.calm ==> r.Returned?
  {
    var key := RunKey(pending[i], day);
    ghost var start := w.env;
    NextIsStartable(before, start, log, w.log, day, pending, i);
    StillDelivered(log, w.log, day);
    ghost var started := w.log;
    r := TriggerAndWait(w, key);
    StartedNext(log, started, w.log, pending, i, day);
    NextKey(before, start, w.env, pending, i, day);
    if r.Returned? {
      NextRan(start, w.env, pending, i, day);
      if w.calm {
        NextComplete(start, w.env, pending, i, day);
        ElsewhereChain(before, start, w.env, day);
      }
    }
  }

  lemma {:induction false} NothingExtracted(env: Env, log: seq<Action>, calm: bool, day: int, pending: seq<Dag>)
    ensures Extracted(env, env, log, log, calm, day, pending, 0)
  {
    EvolvedSelf(env);
  }

  lemma {:induction false} EverythingExtracted(
    before: Env, env: Env, log: seq<Action>, last: seq<Action>, calm: bool, day: int, pending: seq<Dag>)
    requires Extracted(before, env, log, last, calm, day, pending, |pending|)
    ensures Evolved(before, env, Keys(pending, day)) && AllRan(env, pending, day)
    ensures StartedInOrder(log, last, pending, day) && |last| == |log| + |pending|
    ensures calm ==> Elsewhere(before, env, day) && AllComplete(env, pending, day)
  {
    assert pending[..|pending|] == pending;
  }

  /** Reference data ahead of core banking, each waited for before the next is started. */
  method Extract(w: World, day: int, pending: seq<Dag>) returns (r: Ended<()>)
    requires w.Valid() && Left(w.env, day, pending) && (pending != [] ==> day == w.simulated)
    requires Delivered(day) in w.log
    modifies w`env, w`log
    ensures w.Valid() && Evolved(old(w.env), w.env, Keys(pending, day))
    ensures StartedInOrder(old(w.log), w.log, pending, day)
    ensures r.Returned? ==> |w.log| == |old(w.log)| + |pending| && AllRan(w.env, pending, day)
    ensures w.calm ==> r.Returned? && Elsewhere(old(w.env), w.env, day) && AllComplete(w.env, pending, day)
  {
    ghost var before, log := w.env, w.log;
    NothingExtracted(before, log, w.calm, day, pending);
    for i := 0 to |pending|
      invariant w.Valid() && Extracted(before, w.env, log, w.log, w.calm, day, pending, i)
    {
      var _ :- ExtractNext(w, before, log, day, pending, i);
    }
    EverythingExtracted(before, w.env, log, w.log, w.calm, day, pending);
    return Returned(());
  }

  /** What a run that was started and waited for has done when nothing disturbed it. */
  ghost predicate RanCalmly(a: Env, b: Env, key: RunKey) {
    && Elsewhere(a, b, key.day)
    && (key.dag.Relational() ==> RelationalComplete(b.BatchesOf(key.day), key.dag))
    && (!key.dag.Relational() ==> FeedDone(b, key) && SameExtractions(a, b))
  }

  lemma {:induction false} StartedRunsCalmly(catalogue: Catalogue, env: Env, key: RunKey, history: set<int>)
    requires catalogue.Sound()
    ensures !env.Starting(key).Idle(key) && RanCalmly(env, env.Starting(key).Completed(catalogue, key, history), key)
  {
    if key.dag.Relational() {
      CompletedIsComplete(catalogue, env.Starting(key), key, history);
    }
    CompletedStaysInItsDay(catalogue, env.Starting(key), key, history);
    StartStaysInItsDay(env, key);
  }

  lemma {:induction false} StartStaysInItsDay(env: Env, key: RunKey)
    ensures Elsewhere(env, env.Starting(key), key.day)
    ensures !key.dag.Relational() ==> SameExtractions(env, env.Starting(key))
  {
  }

  method TriggerAndWait(w: World, key: RunKey) returns (r: Ended<()>)
    requires w.Valid() && key.day <= w.simulated && Sendable(w.anchor, w.log, key)
    requires Startable(w.env, w.simulated, w.log, key)
    modifies w`env, w`log
    ensures w.Valid() && Evolved(old(w.env), w.env, {key}) && LogsRun(old(w.log), w.log, key)
    ensures r.Returned? ==> w.log != old(w.log) && key in w.env.runs && w.env.Idle(key)
    ensures w.calm ==> r.Returned? && RanCalmly(old(w.env), w.env, key)
  {
    var _ :- StartRun(w, key);
    ghost var started := w.env;
    StartedRunsCalmly(w.catalogue, old(w.env), key, w.History(key));
    r := WaitFor(w, key);
    EvolvedChain(old(w.env), started, w.env, {key}, {});
    assert {key} + {} == {key};
  }

  predicate AllDone(env: Env, dags: seq<Dag>, day: int) {
    forall dag :: dag in dags ==> FeedDone(env, RunKey(dag, day))
  }

  lemma {:induction false} StillDone(a: Env, b: Env, dags: seq<Dag>, day: int)
    requires Evolved(a, b, {}) && AllDone(a, dags, day)
    ensures AllDone(b, dags, day)
  {
    forall dag | dag in dags ensures FeedDone(b, RunKey(dag, day)) {
      EvolutionKeepsFeed(a, b, {}, RunKey(dag, day));
    }
  }

  /** Each feed of a list is still going, or done. */
  ghost predicate Settling(env: Env, dags: seq<Dag>, day: int) {
    forall dag :: dag in dags ==> !env.Idle(RunKey(dag, day)) || FeedDone(env, RunKey(dag, day))
  }

  /** The day's unfinished feeds, started together and then judged one by one; false halts the loop. */
  method RunFeeds(w: World, day: int, pending: seq<Dag>) returns (r: Ended<bool>)
    requires w.Valid() && day <= w.simulated
    requires AllDue(pending, day)
    requires Delivered(day) in w.log
    modifies w`env, w`log
    ensures w.Valid() && Evolved(old(w.env), w.env, Keys(pending, day))
    ensures StartedInOrder(old(w.log), w.log, pending, day)
    ensures r == Returned(true) ==> AllDone(w.env, pending, day)
    ensures w.calm ==> r == Returned(true) && SameExtractions(old(w.env), w.env)
  {
    var _ :- StartFeeds(w, day, pending);
    ghost var started := w.env;
    FeedsReadNoSource(pending, day);
    r := JudgeFeeds(w, day, pending);
    EvolvedChain(old(w.env), started, w.env, Keys(pending, day), {});
    assert Keys(pending, day) + {} == Keys(pending, day);
  }

  /** How far the day's feeds have been started, from the world and the log that began with. */
  ghost predicate Started(w: World, before: Env, log: seq<Action>, day: int, pending: seq<Dag>, i: nat)
    requires i <= |pending|
    reads w
  {
    && w.Valid() && Evolved(before, w.env, Keys(pending[..i], day)) && StartedInOrder(log, w.log, pending, day)
    && |w.log| == |log| + i && (forall j :: 0 <= j < i ==> RunKey(pending[j], day) in w.env.runs)
    && (w.calm ==> SameExtractions(before, w.env) && forall j :: 0 <= j < i ==> !w.env.Idle(RunKey(pending[j], day)))
  }

  method StartNextFeed(
    w: World, ghost before: Env, ghost log: seq<Action>, day: int, pending: seq<Dag>, i: nat) returns (r: Ended<()>)
    requires i < |pending| && Started(w, before, log, day, pending, i) && day <= w.simulated
             && AllDue(pending, day) && Delivered(day) in log
    modifies w`env, w`log
    ensures w.Valid() && Evolved(before, w.env, Keys(pending, day)) && StartedInOrder(log, w.log, pending, day)
    ensures r.Returned? ==> Started(w, before, log, day, pending, i + 1)
    ensures w.calm ==> r.Returned?
  {
    ghost var start := w.env;
    StillDelivered(log, w.log, day);
    DueIsOnItsDay(pending, day, pending[i]);
    ghost var started := w.log;
    r := StartRun(w, RunKey(pending[i], day));
    StartedNext(log, started, w.log, pending, i, day);
    NextKey(before, start, w.env, pending, i, day);
    if w.calm {
      StartStaysInItsDay(start, RunKey(pending[i], day));
      SameExtractionsChain(before, start, w.env);
      NextIsGoing(start, pending, i, day);
    }
  }

  lemma {:induction false} NextIsGoing(env: Env, pending: seq<Dag>, i: nat, day: int)
    requires i < |pending| && forall j :: 0 <= j < i ==> !env.Idle(RunKey(pending[j], day))
    ensures forall j :: 0 <= j < i + 1 ==> !env.Starting(RunKey(pending[i], day)).Idle(RunKey(pending[j], day))
  {
  }

  method StartFeeds(w: World, day: int, pending: seq<Dag>) returns (r: Ended<()>)
    requires w.Valid() && day <= w.simulated
    requires AllDue(pending, day)
    requires Delivered(day) in w.log
    modifies w`env, w`log
    ensures w.Valid() && Evolved(old(w.env), w.env, Keys(pending, day))
    ensures StartedInOrder(old(w.log), w.log, pending, day)
    ensures r.Returned? ==> forall dag :: dag in pending ==> RunKey(dag, day) in w.env.runs
    ensures w.calm ==> r.Returned? && SameExtractions(old(w.env), w.env) && Settling(w.env, pending, day)
  {
    ghost var before, log := w.env, w.log;
    EvolvedSelf(w.env);
    for i := 0 to |pending|
      invariant Started(w, before, log, day, pending, i)
    {
      var _ :- StartNextFeed(w, before, log, day, pending, i);
    }
    assert pending[..|pending|] == pending;
    return Returned(());
  }

  /** Waiting for one feed leaves the others as they were: still going, or done. */
  lemma {:induction false} WaitingKeepsSettling(w: World, a: Env, b: Env, dags: seq<Dag>, day: int, dag: Dag)
    requires Settling(a, dags, day) && dag in dags && !dag.Relational() && w.catalogue.Sound()
    requires b == w.Waited(a, RunKey(dag, day)) && Evolved(a, b, {})
    ensures Settling(b, dags, day) && SameExtractions(a, b) && FeedDone(b, RunKey(dag, day))
  {
    var key := RunKey(dag, day);
    CompletedStaysInItsDay(w.catalogue, a, key, w.History(key));
    forall other | other in dags ensures !b.Idle(RunKey(other, day)) || FeedDone(b, RunKey(other, day)) {
      if other != dag && a.Idle(RunKey(other, day)) {
        EvolutionKeepsFeed(a, b, {}, RunKey(other, day));
      }
    }
  }

  /** Waits for one feed and judges it. */
  method JudgeNextFeed(w: World, day: int, dag: Dag, ghost all: seq<Dag>) returns (r: Ended<FeedDay>)
    requires w.Valid() && RunKey(dag, day) in w.env.runs && dag in all && !dag.Relational()
    modifies w`env
    ensures w.Valid() && Evolved(old(w.env), w.env, {})
    ensures r.Returned? ==> (r.value.failures == [] <==> FeedDone(w.env, RunKey(dag, day)))
    ensures w.calm && old(Settling(w.env, all, day)) ==>
              r.Returned? && r.value.failures == [] && Settling(w.env, all, day) && SameExtractions(old(w.env), w.env)
  {
    ghost var before := w.env;
    var key := RunKey(dag, day);
    var _ :- WaitFor(w, key);
    if w.calm && Settling(before, all, day) {
      WaitingKeepsSettling(w, before, w.env, all, day, dag);
    }
    var verdict := JudgeFeed(key.dag, w.env.RunOf(key), w.env.FeedOf(key));
    return Returned(verdict);
  }

  /** The feeds judged so far: none failed means all done, and undisturbed none does. */
  ghost predicate JudgedUpTo(
    before: Env, env: Env, calm: bool, day: int, started: seq<Dag>, i: nat, failed: seq<Failure>)
    requires i <= |started|
  {
    && Evolved(before, env, {}) && (failed == [] ==> AllDone(env, started[..i], day))
    && (calm && Settling(before, started, day) ==>
          failed == [] && Settling(env, started, day) && SameExtractions(before, env))
  }

  lemma {:induction false} NextDone(a: Env, b: Env, started: seq<Dag>, i: nat, day: int)
    requires i < |started| && Evolved(a, b, {}) && AllDone(a, started[..i], day) && FeedDone(b, RunKey(started[i], day))
    ensures AllDone(b, started[..i + 1], day)
  {
    StillDone(a, b, started[..i], day);
    assert started[..i + 1] == started[..i] + [started[i]];
  }

  lemma {:induction false} NextJudged(
    before: Env, start: Env, env: Env, calm: bool, day: int, started: seq<Dag>, i: nat, failed: seq<Failure>,
    more: seq<Failure>)
    requires i < |started| && JudgedUpTo(before, start, calm, day, started, i, failed) && Evolved(start, env, {})
    requires more == [] ==> FeedDone(env, RunKey(started[i], day))
    requires calm && Settling(start, started, day) ==>
               more == [] && Settling(env, started, day) && SameExtractions(start, env)
    ensures JudgedUpTo(before, env, calm, day, started, i + 1, failed + more)
  {
    EvolvedChain(before, start, env, {}, {});
    if failed == [] && more == [] {
      NextDone(start, env, started, i, day);
    }
  }

  method JudgeFeeds(w: World, day: int, started: seq<Dag>) returns (r: Ended<bool>)
    requires w.Valid() && forall dag :: dag in started ==> RunKey(dag, day) in w.env.runs && !dag.Relational()
    modifies w`env
    ensures w.Valid() && Evolved(old(w.env), w.env, {})
    ensures r == Returned(true) ==> AllDone(w.env, started, day)
    ensures w.calm && old(Settling(w.env, started, day)) ==> r == Returned(true) && SameExtractions(old(w.env), w.env)
  {
    ghost var before := w.env;
    EvolvedSelf(w.env);
    var failed: seq<Failure> := [];
    for i := 0 to |started|
      invariant w.Valid() && JudgedUpTo(before, w.env, w.calm, day, started, i, failed)
    {
      ghost var start := w.env;
      assert started[i] in started && RunKey(started[i], day) in before.runs;
      var judged := JudgeNextFeed(w, day, started[i], started);
      EvolvedChain(before, start, w.env, {}, {});
      var verdict :- judged;
      NextJudged(before, start, w.env, w.calm, day, started, i, failed, verdict.failures);
      failed := failed + verdict.failures;
    }
    assert started[..|started|] == started;
    return Returned(failed == []);
  }

  /** The feeds of the day the registry does not call complete. */
  method FeedsPending(w: World, day: int, due: seq<Dag>) returns (r: Ended<seq<Dag>>)
    requires w.Valid() && forall dag :: dag in due ==> w.env.Idle(RunKey(dag, day))
    modifies w`env
    ensures w.Valid() && Evolved(old(w.env), w.env, {})
    ensures r.Returned? ==> forall dag :: dag in r.value ==> dag in due && !old(FeedDone(w.env, RunKey(dag, day)))
    ensures r.Returned? ==> forall dag :: dag in due && dag !in r.value ==> FeedDone(w.env, RunKey(dag, day))
    ensures w.calm ==> r.Returned? && w.env == old(w.env)
  {
    EvolvedSelf(w.env);
    var pending: seq<Dag> := [];
    ghost var done: seq<Dag> := [];
    for i := 0 to |due|
      invariant w.Valid() && Evolved(old(w.env), w.env, {})
      invariant AllDone(w.env, done, day)
      invariant forall dag :: dag in due[..i] ==> dag in pending || dag in done
      invariant forall dag :: dag in pending ==> dag in due && !FeedDone(old(w.env), RunKey(dag, day))
      invariant w.calm ==> w.env == old(w.env)
    {
      assert due[..i + 1] == due[..i] + [due[i]];
      var key := RunKey(due[i], day);
      ghost var before := w.env;
      var read := w.Reach();
      EvolvedChain(old(w.env), before, w.env, {}, {});
      StillDone(before, w.env, done, day);
      var _ :- read;
      StandsAs(old(w.env), w.env, key);
      var verdict := JudgeFeed(due[i], w.env.RunOf(key), w.env.FeedOf(key));
      if verdict.complete {
        done := done + [due[i]];
      } else {
        pending := pending + [due[i]];
      }
    }
    assert due[..|due|] == due;
    return Returned(pending);
  }

  /** An idle run stays idle while nothing touches it, and a finished feed stays finished. */
  lemma {:induction false} StandsAs(a: Env, b: Env, key: RunKey)
    requires Evolved(a, b, {}) && a.Idle(key)
    ensures b.Idle(key) && (FeedDone(a, key) ==> FeedDone(b, key))
  {
    EvolutionKeepsIdle(a, b, {}, key);
    if FeedDone(a, key) {
      EvolutionKeepsFeed(a, b, {}, key);
    }
  }

  /** Ticks the source to the day when the guard says so, and raises when it refuses. */
  method PrepareSource(w: World, day: int, pending: seq<Dag>) returns (r: Ended<()>)
    requires w.Valid() && Left(w.env, day, pending) && MayLeave(w.env, w.simulated, w.log, day)
    modifies w`env, w`log, w`simulated
    ensures w.Valid() && Evolved(old(w.env), w.env, {})
    ensures var need := TickNeeded(day, old(w.simulated), w.anchor, pending != []);
            && (if w.simulated == old(w.simulated) then w.log == old(w.log)
                else need == Tick && w.simulated == day && w.log == old(w.log) + [TickTo(w.env, day)])
            && (r.Returned? ==> need != Refuse && (need == Tick ==> w.simulated == day))
            && (r.Returned? ==> day <= w.simulated && (pending != [] ==> day == w.simulated))
            && (w.calm && need != Refuse ==> r.Returned? && w.env == old(w.env))
  {
    ghost var before := w.env;
    var _ :- w.Reach();
    var need := TickNeeded(day, w.simulated, w.anchor, pending != []);
    match need
    case Refuse => return Raised;
    case Stay => return Returned(());
    case Tick =>
      ghost var reached := w.env;
      LeftStands(before, reached, day, pending);
      EvolutionKeepsLeave(w.catalogue, before, reached, {}, w.simulated, w.log, day);
      r := TickSource(w, day);
      EvolvedChain(before, reached, w.env, {}, {});
  }

  /** With both DAGs complete no failed batch is left unaccounted for. */
  lemma {:induction false} NothingOutstanding(catalogue: Catalogue, env: Env, day: int)
    requires catalogue.Sound() && Known(catalogue, env) && BothComplete(env.BatchesOf(day))
    ensures Outstanding(env.BatchesOf(day)) == {}
  {
    var batches := env.BatchesOf(day);
    assert catalogue.Knows(batches);
    forall failed | failed in batches ensures NameRegistered(batches, failed.entity) {
      CompleteMeansEveryEntity(catalogue, batches, failed.owner);
      assert failed.entity in RegisteredEntities(batches, failed.owner);
    }
  }

  /** What is left of a day, complete since, leaves nothing of it. */
  lemma {:induction false} LeftIsComplete(a: Env, b: Env, day: int, pending: seq<Dag>)
    requires pending == Pending(a.BatchesOf(day)) && a.BatchesOf(day) <= b.BatchesOf(day)
    requires AllComplete(b, pending, day)
    ensures BothComplete(b.BatchesOf(day))
  {
    if Reference !in pending {
      GrowthKeepsComplete(a.BatchesOf(day), b.BatchesOf(day), Reference);
    }
    if Core !in pending {
      GrowthKeepsComplete(a.BatchesOf(day), b.BatchesOf(day), Core);
    }
  }

  /** The day's pending extractions, then the halt test; false halts the loop. */
  method ExtractAndCheck(w: World, day: int, pending: seq<Dag>) returns (r: Ended<bool>)
    requires w.Valid() && Left(w.env, day, pending) && (pending != [] ==> day == w.simulated)
    requires Delivered(day) in w.log
    modifies w`env, w`log
    ensures w.Valid() && Evolved(old(w.env), w.env, Keys(pending, day))
    ensures StartedInOrder(old(w.log), w.log, pending, day)
    ensures r.Returned? ==> RelationalIdle(w.env, day)
    ensures r == Returned(true) ==> DoneWith(w.env, day)
    ensures r == Returned(true) && w.honest ==> BothComplete(w.env.BatchesOf(day))
    ensures w.calm ==> r == Returned(true) && Elsewhere(old(w.env), w.env, day)
  {
    var _ :- Extract(w, day, pending);
    ghost var before := w.env;
    if pending == [] {
      IdleStands(old(w.env), before, pending, day);
      LeftIsComplete(old(w.env), before, day, pending);
      NothingOutstanding(w.catalogue, before, day);
      return Returned(true);
    }
    var read := w.Reach();
    EvolvedChain(old(w.env), before, w.env, Keys(pending, day), {});
    assert Keys(pending, day) + {} == Keys(pending, day);
    var _ :- read;
    RanAreIdle(old(w.env), before, w.env, pending, day);
    if w.calm {
      LeftIsComplete(old(w.env), w.env, day, pending);
      NothingOutstanding(w.catalogue, w.env, day);
    }
    if Outstanding(w.env.BatchesOf(day)) != {} {
      return Returned(false);
    }
    if w.honest {
      RanAreComplete(w, before, day, pending);
      LeftIsComplete(old(w.env), w.env, day, pending);
    }
    return Returned(true);
  }

  /** Once the pending extractions ran, no extraction of the day is going. */
  lemma {:induction false} RanAreIdle(a: Env, b: Env, c: Env, pending: seq<Dag>, day: int)
    requires RelationalIdle(a, day) && AllRan(b, pending, day)
    requires Evolved(a, c, Keys(pending, day)) && Evolved(b, c, {})
    ensures RelationalIdle(c, day)
  {
    forall dag | dag in pending ensures c.Idle(RunKey(dag, day)) {
      EvolutionKeepsIdle(b, c, {}, RunKey(dag, day));
    }
    IdleStands(a, c, pending, day);
  }

  /** Where terminal runs end every entity, extractions that ran and left nothing outstanding are complete. */
  lemma {:induction false} RanAreComplete(w: World, before: Env, day: int, pending: seq<Dag>)
    requires w.Valid() && w.honest && Evolved(before, w.env, {}) && AllRan(before, pending, day)
    requires Outstanding(w.env.BatchesOf(day)) == {}
    ensures AllComplete(w.env, pending, day)
  {
    forall dag: Dag | dag in pending && dag.Relational() ensures RelationalComplete(w.env.BatchesOf(day), dag) {
      EvolutionKeepsIdle(before, w.env, {}, RunKey(dag, day));
      assert RunKey(dag, day) in w.env.runs;
      EndedIsComplete(w.catalogue, w.env.BatchesOf(day), dag);
    }
  }

  const DAGS := [Reference, Core, Settlement, Fx, Sanctions, Macro]

  function DayKeys(day: int): set<RunKey> {
    Keys(DAGS, day)
  }

  lemma {:induction false} AnyKeys(dags: seq<Dag>, more: seq<Dag>, day: int)
    ensures {} + (Keys(dags, day) + Keys(more, day)) <= DayKeys(day)
  {
    forall dag: Dag ensures dag in DAGS {
      match dag
      case Reference => assert dag == DAGS[0];
      case Core => assert dag == DAGS[1];
      case Settlement => assert dag == DAGS[2];
      case Fx => assert dag == DAGS[3];
      case Sanctions => assert dag == DAGS[4];
      case Macro => assert dag == DAGS[5];
    }
  }

  /** What the registry says is left of a day. */
  datatype Work = Work(pending: seq<Dag>, feeds: seq<Dag>)

  ghost predicate ReadRight(env: Env, day: int, work: Work)
    requires day >= 1
  {
    && Left(env, day, work.pending)
    && (forall dag :: dag in work.feeds ==> dag in FeedsDue(day))
    && (forall dag :: dag in FeedsDue(day) && dag !in work.feeds ==> FeedDone(env, RunKey(dag, day)))
  }

  /** The runs of a day an earlier invocation may have left going. */
  function DayRuns(day: int): (dags: seq<Dag>)
    requires day >= 1
    ensures Reference in dags && Core in dags && forall dag :: dag in FeedsDue(day) ==> dag in dags
  {
    assert ([Reference, Core] + FeedsDue(day))[0] == Reference && ([Reference, Core] + FeedsDue(day))[1] == Core;
    [Reference, Core] + FeedsDue(day)
  }

  /** Waits until no run of the day is going, and gives the relational DAGs left. */
  method ReadPending(w: World, day: int) returns (r: Ended<seq<Dag>>)
    requires w.Valid() && day >= 1
    modifies w`env
    ensures w.Valid() && Evolved(old(w.env), w.env, {})
    ensures r.Returned? ==> Left(w.env, day, r.value)
    ensures r.Returned? ==> forall dag :: dag in FeedsDue(day) ==> w.env.Idle(RunKey(dag, day))
    ensures w.calm ==> r.Returned? && Elsewhere(old(w.env), w.env, day)
    ensures w.calm && old(RelationalIdle(w.env, day)) ==> SameExtractions(old(w.env), w.env)
  {
    var dags := DayRuns(day);
    var _ :- SettleRuns(w, dags, day);
    ghost var settled := w.env;
    var read := w.Reach();
    EvolvedChain(old(w.env), settled, w.env, {}, {});
    var _ :- read;
    forall dag | dag in dags ensures w.env.Idle(RunKey(dag, day)) {
      EvolutionKeepsIdle(settled, w.env, {}, RunKey(dag, day));
    }
    return Returned(Pending(w.env.BatchesOf(day)));
  }

  /** Reads a day once no run of it is going. */
  method ReadDay(w: World, day: int) returns (r: Ended<Work>)
    requires w.Valid() && day >= 1
    modifies w`env
    ensures w.Valid() && Evolved(old(w.env), w.env, {})
    ensures r.Returned? ==> ReadRight(w.env, day, r.value)
    ensures r.Returned? ==> forall dag :: dag in r.value.feeds ==> !old(FeedDone(w.env, RunKey(dag, day)))
    ensures r.Returned? && old(DayComplete(w.env, day)) ==> r.value == Work([], [])
    ensures w.calm ==> r.Returned? && Elsewhere(old(w.env), w.env, day)
    ensures w.calm && old(RelationalIdle(w.env, day)) ==> SameExtractions(old(w.env), w.env)
  {
    ghost var start := w.env;
    var pending :- ReadPending(w, day);
    ghost var looked := w.env;
    var feeds := FeedsPending(w, day, FeedsDue(day));
    EvolvedChain(start, looked, w.env, {}, {});
    var left :- feeds;
    assert left == [] || left[0] in left;
    LeftStands(looked, w.env, day, pending);
    forall dag | dag in left ensures !FeedDone(start, RunKey(dag, day)) {
      if FeedDone(start, RunKey(dag, day)) {
        EvolutionKeepsFeed(start, looked, {}, RunKey(dag, day));
      }
    }
    if DayComplete(start, day) {
      EvolutionKeepsDay(start, looked, {}, day);
    }
    return Returned(Work(pending, left));
  }

  /** What was left of a day, done since, finishes it. */
  lemma {:induction false} WorkFinishes(read: Env, now: Env, day: int, work: Work)
    requires day >= 1 && ReadRight(read, day, work)
    requires Evolved(read, now, Keys(work.pending, day) + Keys(work.feeds, day))
    requires RelationalIdle(now, day) && BothComplete(now.BatchesOf(day)) && AllDone(now, work.feeds, day)
    ensures DayComplete(now, day)
  {
    forall dag | dag in FeedsDue(day) ensures FeedDone(now, RunKey(dag, day)) {
      if dag !in work.feeds {
        LeftOutFeedStands(read, now, day, work, dag);
      }
    }
  }

  lemma {:induction false} LeftOutFeedStands(read: Env, now: Env, day: int, work: Work, dag: Dag)
    requires day >= 1 && ReadRight(read, day, work) && dag in FeedsDue(day) && dag !in work.feeds
    requires Evolved(read, now, Keys(work.pending, day) + Keys(work.feeds, day))
    ensures FeedDone(now, RunKey(dag, day))
  {
    var key, touched := RunKey(dag, day), Keys(work.pending, day) + Keys(work.feeds, day);
    assert key !in Keys(work.pending, day) by {
      assert !dag.Relational();
    }
    assert key !in Keys(work.feeds, day);
    EvolutionKeepsFeed(read, now, touched, key);
  }

  /** Running the feeds disturbs no extraction. */
  method WorkOnFeeds(w: World, day: int, feeds: seq<Dag>) returns (r: Ended<bool>)
    requires w.Valid() && day <= w.simulated && Delivered(day) in w.log
    requires AllDue(feeds, day)
    modifies w`env, w`log
    ensures w.Valid() && Evolved(old(w.env), w.env, Keys(feeds, day))
    ensures StartedInOrder(old(w.log), w.log, feeds, day)
    ensures old(RelationalIdle(w.env, day)) ==> RelationalIdle(w.env, day)
    ensures old(DoneWith(w.env, day)) ==> DoneWith(w.env, day)
    ensures old(BothComplete(w.env.BatchesOf(day))) ==> BothComplete(w.env.BatchesOf(day))
    ensures r == Returned(true) ==> AllDone(w.env, feeds, day)
    ensures w.calm ==> r == Returned(true) && SameExtractions(old(w.env), w.env)
  {
    FeedsReadNoSource(feeds, day);
    r := RunFeeds(w, day, feeds);
    FeedsLeaveTheDay(w.catalogue, old(w.env), w.env, feeds, day);
  }

  lemma {:induction false} FeedsLeaveTheDay(catalogue: Catalogue, a: Env, b: Env, feeds: seq<Dag>, day: int)
    requires Evolved(a, b, Keys(feeds, day)) && Known(catalogue, b)
    requires forall dag :: dag in feeds ==> !dag.Relational()
    ensures RelationalIdle(a, day) ==> RelationalIdle(b, day)
    ensures DoneWith(a, day) ==> DoneWith(b, day)
    ensures BothComplete(a.BatchesOf(day)) ==> BothComplete(b.BatchesOf(day))
  {
    if RelationalIdle(a, day) {
      FeedsKeepIdle(a, b, feeds, day);
    }
    if DoneWith(a, day) {
      EvolutionKeepsDone(catalogue, a, b, Keys(feeds, day), day);
    }
    if BothComplete(a.BatchesOf(day)) {
      GrowthKeepsComplete(a.BatchesOf(day), b.BatchesOf(day), Reference);
      GrowthKeepsComplete(a.BatchesOf(day), b.BatchesOf(day), Core);
    }
  }

  method WorkOn(w: World, day: int, work: Work) returns (r: Ended<int>)
    requires w.Valid() && day >= 1 && ReadRight(w.env, day, work) && MayLeave(w.env, w.simulated, w.log, day)
    modifies w`env, w`log, w`simulated
    ensures w.Valid() && Evolved(old(w.env), w.env, Keys(work.pending, day) + Keys(work.feeds, day))
    ensures w.simulated == old(w.simulated) || (w.simulated == day == old(w.simulated) + 1)
    ensures Worked(old(w.log), w.log) && FeedsStarted(old(w.log), w.log, work.feeds, day)
    ensures r.Returned? ==> RelationalIdle(w.env, day) && day <= w.simulated
    ensures r == Returned(0) ==> DoneWith(w.env, day)
    ensures r == Returned(0) && w.honest ==> DayComplete(w.env, day)
    ensures w.calm && TickNeeded(day, old(w.simulated), w.anchor, work.pending != []) != Refuse ==>
              r == Returned(0) && Elsewhere(old(w.env), w.env, day)
  {
    var extracted := PrepareAndExtract(w, day, work.pending);
    ghost var before, log := w.env, w.log;
    WiderTouch(old(w.env), before, Keys(work.pending, day), Keys(work.pending, day) + Keys(work.feeds, day));
    var ok :- extracted;
    if !ok {
      return Returned(1);
    }
    var fed := WorkOnFeeds(w, day, work.feeds);
    EvolvedChain(old(w.env), before, w.env, Keys(work.pending, day), Keys(work.feeds, day));
    FeedsStartedNext(old(w.log), log, w.log, work.feeds, day);
    var done :- fed;
    if !done {
      return Returned(1);
    }
    if w.honest {
      WorkFinishes(old(w.env), w.env, day, work);
    }
    return Returned(0);
  }

  /** The feeds started since are among these. */
  ghost predicate FeedsStarted(before: seq<Action>, after: seq<Action>, feeds: seq<Dag>, day: int) {
    forall i :: |before| <= i < |after| && after[i].Triggered? && !after[i].dag.Relational() ==>
      after[i].dag in feeds && after[i].day == day
  }

  lemma {:induction false} FeedsStartedNext(
    a: seq<Action>, b: seq<Action>, c: seq<Action>, feeds: seq<Dag>, day: int)
    requires Worked(a, b) && FeedsStarted(a, b, [], day) && StartedInOrder(b, c, feeds, day)
    ensures Worked(a, c) && FeedsStarted(a, c, feeds, day)
  {
    WorkedChain(a, b, c);
    assert forall i :: |a| <= i < |b| ==> c[i] == b[i];
  }

  lemma {:induction false} WiderTouch(a: Env, b: Env, some: set<RunKey>, all: set<RunKey>)
    requires Evolved(a, b, some) && some <= all
    ensures Evolved(a, b, all)
  {
  }

  /** The day's extractions are idle after it: the pending ones were waited for and the rest untouched. */
  lemma {:induction false} IdleStands(a: Env, b: Env, pending: seq<Dag>, day: int)
    requires Evolved(a, b, Keys(pending, day)) && RelationalIdle(a, day)
    requires forall dag :: dag in pending ==> b.Idle(RunKey(dag, day))
    ensures RelationalIdle(b, day)
  {
    if Reference !in pending {
      EvolutionKeepsIdle(a, b, Keys(pending, day), RunKey(Reference, day));
    }
    if Core !in pending {
      EvolutionKeepsIdle(a, b, Keys(pending, day), RunKey(Core, day));
    }
  }

  lemma {:induction false} FeedsKeepIdle(a: Env, b: Env, feeds: seq<Dag>, day: int)
    requires Evolved(a, b, Keys(feeds, day)) && RelationalIdle(a, day)
    requires forall dag :: dag in feeds ==> !dag.Relational()
    ensures RelationalIdle(b, day)
  {
    EvolutionKeepsIdle(a, b, Keys(feeds, day), RunKey(Reference, day));
    EvolutionKeepsIdle(a, b, Keys(feeds, day), RunKey(Core, day));
  }

  lemma {:induction false} NoFeedNext(a: seq<Action>, b: seq<Action>, c: seq<Action>, action: Action, day: int)
    requires a == b || (Worked(a, b) && FeedsStarted(a, b, [], day))
    requires (c == b || c == b + [action]) && (action.Ticked? || action.Delivered?)
    ensures Worked(a, c) && FeedsStarted(a, c, [], day)
  {
    assert forall i :: 0 <= i < |b| ==> c[i] == b[i];
    assert forall i :: |a| <= i < |b| ==> b[|a|..][i - |a|] == b[i];
  }

  method PrepareAndDeliver(w: World, day: int, pending: seq<Dag>) returns (r: Ended<()>)
    requires w.Valid() && Left(w.env, day, pending) && MayLeave(w.env, w.simulated, w.log, day)
    modifies w`env, w`log, w`simulated
    ensures w.Valid() && Evolved(old(w.env), w.env, {})
    ensures w.simulated == old(w.simulated) || (w.simulated == day == old(w.simulated) + 1)
    ensures Worked(old(w.log), w.log) && FeedsStarted(old(w.log), w.log, [], day)
    ensures r.Returned? ==> Delivered(day) in w.log
    ensures r.Returned? ==> day <= w.simulated && (pending != [] ==> day == w.simulated)
    ensures w.calm && TickNeeded(day, old(w.simulated), w.anchor, pending != []) != Refuse ==>
              r.Returned? && w.env == old(w.env)
  {
    var prepared := PrepareSource(w, day, pending);
    ghost var ready, log := w.env, w.log;
    NoFeedNext(old(w.log), old(w.log), log, TickTo(ready, day), day);
    var _ :- prepared;
    r := Deliver(w, day);
    EvolvedChain(old(w.env), ready, w.env, {}, {});
    NoFeedNext(old(w.log), log, w.log, Delivered(day), day);
  }

  /** Gets the source to the day, delivers, and extracts what is pending; false halts the loop. */
  method PrepareAndExtract(w: World, day: int, pending: seq<Dag>) returns (r: Ended<bool>)
    requires w.Valid() && Left(w.env, day, pending) && MayLeave(w.env, w.simulated, w.log, day)
    modifies w`env, w`log, w`simulated
    ensures w.Valid() && Evolved(old(w.env), w.env, Keys(pending, day))
    ensures w.simulated == old(w.simulated) || (w.simulated == day == old(w.simulated) + 1)
    ensures Worked(old(w.log), w.log) && FeedsStarted(old(w.log), w.log, [], day)
    ensures r.Returned? ==> Delivered(day) in w.log && day <= w.simulated && RelationalIdle(w.env, day)
    ensures r == Returned(true) ==> DoneWith(w.env, day)
    ensures r == Returned(true) && w.honest ==> BothComplete(w.env.BatchesOf(day))
    ensures w.calm && TickNeeded(day, old(w.simulated), w.anchor, pending != []) != Refuse ==>
              r == Returned(true) && Elsewhere(old(w.env), w.env, day)
  {
    var prepared := PrepareAndDeliver(w, day, pending);
    ghost var sent, log := w.env, w.log;
    WiderTouch(old(w.env), sent, {}, Keys(pending, day));
    LeftStands(old(w.env), sent, day, pending);
    var _ :- prepared;
    r := ExtractAndCheck(w, day, pending);
    EvolvedChain(old(w.env), sent, w.env, {}, Keys(pending, day));
    assert {} + Keys(pending, day) == Keys(pending, day);
    ExtractionsAreNoFeeds(old(w.log), log, w.log, pending, day);
  }

  lemma {:induction false} ExtractionsAreNoFeeds(
    a: seq<Action>, b: seq<Action>, c: seq<Action>, pending: seq<Dag>, day: int)
    requires Worked(a, b) && FeedsStarted(a, b, [], day) && StartedInOrder(b, c, pending, day)
    requires forall dag :: dag in pending ==> dag.Relational()
    ensures Worked(a, c) && FeedsStarted(a, c, [], day)
  {
    WorkedChain(a, b, c);
    forall i | |a| <= i < |c| && c[i].Triggered? ensures c[i].dag.Relational() {
      if i < |b| {
        assert c[i] == b[i];
      } else {
        assert c[i].dag in pending;
      }
    }
  }

  /** A day the loop can finish: the source's own, an earlier one already extracted, or the next one, not yet. */
  ghost predicate Workable(env: Env, simulated: int, day: int) {
    day == simulated
    || (RelationalIdle(env, day) && day <= simulated + 1 && (day < simulated <==> BothComplete(env.BatchesOf(day))))
  }

  /** The guard lets a workable day through. */
  lemma {:induction false} WorkableIsLetThrough(
    a: Env, b: Env, simulated: int, anchor: int, day: int, pending: seq<Dag>)
    requires Workable(a, simulated, day) && anchor <= simulated && (RelationalIdle(a, day) ==> SameExtractions(a, b))
    requires pending == Pending(b.BatchesOf(day))
    ensures TickNeeded(day, simulated, anchor, pending != []) != Refuse
    ensures pending == [] ==> day <= simulated
  {
    if day != simulated {
      assert Reference in pending || Core in pending <==> !BothComplete(b.BatchesOf(day));
      assert pending == [] ==> Reference !in pending && Core !in pending;
      assert pending != [] ==> pending[0] in pending;
    }
  }

  /** No feed was started again that was complete already. */
  ghost predicate NoFeedAgain(env: Env, before: seq<Action>, after: seq<Action>, day: int) {
    forall i :: |before| <= i < |after| && after[i].Triggered? && !after[i].dag.Relational() ==>
      after[i].day == day && !FeedDone(env, RunKey(after[i].dag, day))
  }

  /** One pass of the loop over one day; zero goes on to the next. */
  method OneDay(w: World, day: int) returns (r: Ended<int>)
    requires w.Valid() && day >= 1 && MayLeave(w.env, w.simulated, w.log, day)
    modifies w`env, w`log, w`simulated
    ensures w.Valid() && Evolved(old(w.env), w.env, DayKeys(day))
    ensures w.simulated == old(w.simulated) || (w.simulated == day == old(w.simulated) + 1)
    ensures Worked(old(w.log), w.log)
    ensures NoFeedAgain(old(w.env), old(w.log), w.log, day)
    ensures r == Returned(0) ==> DoneWith(w.env, day)
    ensures r == Returned(0) && w.honest ==> DayComplete(w.env, day)
    ensures old(DayComplete(w.env, day)) ==>
              Evolved(old(w.env), w.env, {}) && w.log == old(w.log) && (r.Returned? ==> r.value == 0)
    ensures w.calm && old(Workable(w.env, w.simulated, day)) ==>
              r == Returned(0) && Elsewhere(old(w.env), w.env, day) && day <= w.simulated
  {
    ghost var start := w.env;
    var read := ReadDay(w, day);
    ghost var looked := w.env;
    WiderTouch(start, looked, {}, DayKeys(day));
    var work :- read;
    SourceNeverBeforeAnchor(w.anchor, w.log);
    if w.calm && Workable(start, w.simulated, day) {
      WorkableIsLetThrough(start, looked, w.simulated, w.anchor, day, work.pending);
    }
    EvolutionKeepsLeave(w.catalogue, start, looked, {}, w.simulated, w.log, day);
    r := DoWork(w, day, work);
    EvolvedChain(start, looked, w.env, {}, Keys(work.pending, day) + Keys(work.feeds, day));
    AnyKeys(work.pending, work.feeds, day);
    WiderTouch(start, w.env, {} + (Keys(work.pending, day) + Keys(work.feeds, day)), DayKeys(day));
    if w.calm && Elsewhere(looked, w.env, day) {
      ElsewhereChain(start, looked, w.env, day);
    }
  }

  /** What is left of the day, if anything is. */
  method DoWork(w: World, day: int, work: Work) returns (r: Ended<int>)
    requires w.Valid() && day >= 1 && ReadRight(w.env, day, work) && MayLeave(w.env, w.simulated, w.log, day)
    modifies w`env, w`log, w`simulated
    ensures w.Valid() && Evolved(old(w.env), w.env, Keys(work.pending, day) + Keys(work.feeds, day))
    ensures work == Work([], []) ==> w.env == old(w.env) && w.log == old(w.log) && r == Returned(0)
    ensures w.simulated == old(w.simulated) || (w.simulated == day == old(w.simulated) + 1)
    ensures Worked(old(w.log), w.log) && FeedsStarted(old(w.log), w.log, work.feeds, day)
    ensures r == Returned(0) ==> DoneWith(w.env, day)
    ensures r == Returned(0) && w.honest ==> DayComplete(w.env, day)
    ensures w.calm && TickNeeded(day, old(w.simulated), w.anchor, work.pending != []) != Refuse
            && (work.pending == [] ==> day <= old(w.simulated)) ==>
              r == Returned(0) && Elsewhere(old(w.env), w.env, day) && day <= w.simulated
  {
    if work == Work([], []) {
      assert Keys([], day) == {};
      EvolvedSelf(w.env);
      NothingOutstanding(w.catalogue, w.env, day);
      WorkFinishes(w.env, w.env, day, work);
      return Returned(0);
    }
    r := WorkOn(w, day, work);
  }

  // ---------------------------------------------------------------- the loop

  /** Every day from `start` up to and not including `until` is complete. */
  ghost predicate RangeComplete(env: Env, start: int, until: int)
    requires start >= 1
  {
    forall day :: start <= day < until ==> DayComplete(env, day)
  }

  /** A complete range has the sanctions list of each of its Mondays and the macro series of each of its fifteenths. */
  lemma {:induction false} CompleteRangeHasItsFeeds(env: Env, start: int, until: int, day: int)
    requires start >= 1 && RangeComplete(env, start, until) && start <= day < until
    ensures FeedDone(env, RunKey(Settlement, day)) && FeedDone(env, RunKey(Fx, day))
    ensures day % 7 == 1 ==> FeedDone(env, RunKey(Sanctions, day))
    ensures Calendar.DateOf(day).day == 15 ==> FeedDone(env, RunKey(Macro, day))
  {
    assert DayComplete(env, day);
    FeedsFallOnTheirDays(day);
  }

  /** Working on one day disturbs no other. */
  lemma {:induction false} OtherDaysStand(a: Env, b: Env, start: int, until: int, touched: set<RunKey>)
    requires start >= 1 && Evolved(a, b, touched) && RangeComplete(a, start, until)
    requires forall key :: key in touched ==> !(start <= key.day < until)
    ensures RangeComplete(b, start, until)
  {
    forall day | start <= day < until ensures DayComplete(b, day) {
      EvolutionKeepsDay(a, b, touched, day);
    }
  }

  /** The loop's range, where the source and the log stood when it began, and what held then: that the whole range was
      complete, or that nothing disturbs the world and all of it can be worked. */
  datatype Loop = Loop(start: int, end: int, simulated: int, log: seq<Action>, complete: bool, calmly: bool)

  /** Where the loop stands before a day of its range: the days so far are done with, and complete where terminal runs
      end every entity; if the whole range was complete nothing has been done, and the rest still is; and if all of it
      could be worked the rest still can. */
  ghost predicate Underway(loop: Loop, env: Env, simulated: int, log: seq<Action>, honest: bool, day: int)
    requires loop.start >= 1
  {
    && loop.start <= day <= loop.end + 1 && simulated >= loop.simulated
    && Worked(loop.log, log) && MayLeave(env, simulated, log, day) && (day > loop.start ==> DoneWith(env, day - 1))
    && (honest ==> RangeComplete(env, loop.start, day))
    && (loop.complete ==> log == loop.log && RangeComplete(env, day, loop.end + 1))
    && (loop.calmly ==> Ahead(env, simulated, day, loop.end) && simulated == Later(loop.simulated, day - 1))
  }

  /** A day's pass seen from the days before it and after it. */
  method Pass(w: World, ghost loop: Loop, day: int) returns (r: Ended<int>)
    requires w.Valid() && 1 <= loop.start <= day <= loop.end && (loop.calmly ==> w.calm)
    requires Underway(loop, w.env, w.simulated, w.log, w.honest, day)
    modifies w`env, w`log, w`simulated
    ensures w.Valid() && w.simulated >= loop.simulated && old(w.env.histories) <= w.env.histories
    ensures Worked(loop.log, w.log) && (loop.complete ==> w.log == loop.log && (r.Returned? ==> r.value == 0))
    ensures r == Returned(0) ==> Underway(loop, w.env, w.simulated, w.log, w.honest, day + 1)
    ensures loop.calmly ==> r == Returned(0)
  {
    ghost var before := w.env;
    CompleteStartsComplete(before, day, loop.end + 1, loop.complete);
    r := OneDay(w, day);
    WorkedChain(loop.log, old(w.log), w.log);
    EarlierDaysStand(before, w.env, loop.start, day);
    LaterDaysStand(before, w.env, day, loop.end + 1);
    StaysAhead(before, w.env, old(w.simulated), w.simulated, day, loop.end);
  }

  function Later(a: int, b: int): int {
    if a < b then b else a
  }

  /** The rest of a range can be worked through: it begins no later than the day after the source's, what lies behind
      the source is extracted, and what lies ahead is not, and nothing of either is going. */
  ghost predicate Ahead(env: Env, simulated: int, day: int, end: int) {
    && day <= simulated + 1
    && forall d :: day <= d <= end && d != simulated ==>
        RelationalIdle(env, d) && (d < simulated <==> BothComplete(env.BatchesOf(d)))
  }

  lemma {:induction false} StaysAhead(a: Env, b: Env, simulated: int, after: int, day: int, end: int)
    requires after == simulated || (after == day == simulated + 1)
    ensures Ahead(a, simulated, day, end) && Elsewhere(a, b, day) && day <= after ==>
              Ahead(b, after, day + 1, end) && after == Later(simulated, day)
  {
    if Ahead(a, simulated, day, end) && Elsewhere(a, b, day) && day <= after {
      forall d | day + 1 <= d <= end && d != after
        ensures RelationalIdle(b, d) && (d < after <==> BothComplete(b.BatchesOf(d)))
      {
        assert RelationalIdle(a, d) && (d < simulated <==> BothComplete(a.BatchesOf(d)));
        assert b.RunOf(RunKey(Reference, d)) == a.RunOf(RunKey(Reference, d));
        assert b.RunOf(RunKey(Core, d)) == a.RunOf(RunKey(Core, d));
      }
    }
  }

  lemma {:induction false} CompleteStartsComplete(env: Env, day: int, until: int, complete: bool)
    requires 1 <= day < until && (complete ==> RangeComplete(env, day, until))
    ensures complete ==> DayComplete(env, day)
  {
  }

  lemma {:induction false} EarlierDaysStand(a: Env, b: Env, start: int, day: int)
    requires 1 <= start <= day && Evolved(a, b, DayKeys(day))
    ensures RangeComplete(a, start, day) && DayComplete(b, day) ==> RangeComplete(b, start, day + 1)
  {
    if RangeComplete(a, start, day) && DayComplete(b, day) {
      OtherDaysStand(a, b, start, day, DayKeys(day));
    }
  }

  lemma {:induction false} LaterDaysStand(a: Env, b: Env, day: int, until: int)
    requires 1 <= day < until
    ensures RangeComplete(a, day, until) && Evolved(a, b, {}) ==> RangeComplete(b, day + 1, until)
  {
    if RangeComplete(a, day, until) && Evolved(a, b, {}) {
      OtherDaysStand(a, b, day, until, {});
    }
  }

  /** Tick, deliver and ingest each day of the window; zero, or the halt's code. Success leaves every day of the
      window complete, and a window already complete is passed over without a single action. */
  method IngestDays(w: World, start: int, end: int) returns (r: Ended<int>)
    requires w.Valid() && 1 <= start <= end && MayLeave(w.env, w.simulated, w.log, start)
    modifies w`env, w`log, w`simulated
    ensures w.Valid() && w.simulated >= old(w.simulated) && old(w.env.histories) <= w.env.histories
    ensures Worked(old(w.log), w.log)
    ensures r == Returned(0) ==> DoneWith(w.env, end)
    ensures r == Returned(0) && w.honest ==> RangeComplete(w.env, start, end + 1)
    ensures old(RangeComplete(w.env, start, end + 1)) ==> w.log == old(w.log) && (r.Returned? ==> r.value == 0)
    ensures w.calm && old(Ahead(w.env, w.simulated, start, end)) ==>
              r == Returned(0) && w.simulated == Later(old(w.simulated), end)
  {
    ghost var loop := Loop(start, end, w.simulated, w.log, RangeComplete(w.env, start, end + 1),
                           w.calm && Ahead(w.env, w.simulated, start, end));
    LoopBegins(loop, w.env, w.honest);
    r := PassDays(w, loop, start, end);
    if r == Returned(0) {
      LoopEnds(loop, w.env, w.simulated, w.log, w.honest);
    }
  }

  /** The loop itself. */
  method PassDays(w: World, ghost loop: Loop, start: int, end: int) returns (r: Ended<int>)
    requires w.Valid() && loop.start == start && loop.end == end && 1 <= start <= end && (loop.calmly ==> w.calm)
    requires Underway(loop, w.env, w.simulated, w.log, w.honest, start)
    modifies w`env, w`log, w`simulated
    ensures w.Valid() && w.simulated >= loop.simulated && old(w.env.histories) <= w.env.histories
    ensures Worked(loop.log, w.log) && (loop.complete ==> w.log == loop.log && (r.Returned? ==> r.value == 0))
    ensures r == Returned(0) ==> Underway(loop, w.env, w.simulated, w.log, w.honest, end + 1)
    ensures loop.calmly ==> r == Returned(0)
  {
    var day := start;
    while day <= end
      invariant start <= day <= end + 1 && w.Valid() && Underway(loop, w.env, w.simulated, w.log, w.honest, day)
      invariant old(w.env.histories) <= w.env.histories
    {
      var code :- Pass(w, loop, day);
      if code != 0 {
        return Returned(code);
      }
      day := day + 1;
    }
    return Returned(0);
  }

  lemma {:induction false} LoopBegins(loop: Loop, env: Env, honest: bool)
    requires 1 <= loop.start <= loop.end && MayLeave(env, loop.simulated, loop.log, loop.start)
    requires loop.complete ==> RangeComplete(env, loop.start, loop.end + 1)
    requires loop.calmly ==> Ahead(env, loop.simulated, loop.start, loop.end)
    ensures Underway(loop, env, loop.simulated, loop.log, honest, loop.start)
  {
  }

  lemma {:induction false} LoopEnds(loop: Loop, env: Env, simulated: int, log: seq<Action>, honest: bool)
    requires 1 <= loop.start <= loop.end && Underway(loop, env, simulated, log, honest, loop.end + 1)
    ensures DoneWith(env, loop.end) && (honest ==> RangeComplete(env, loop.start, loop.end + 1))
    ensures loop.calmly ==> simulated == Later(loop.simulated, loop.end)
    ensures Worked(loop.log, log) && simulated >= loop.simulated && (loop.complete ==> log == loop.log)
  {
  }

  /** The history and the daily runs from the anchor on meet without a gap or an overlap, and a rate date precedes
      every business day. */
  lemma {:induction false} HistoryMeetsDailyRuns(earliest: int, anchor: int, day: int)
    ensures var span := HistoryRange(earliest, anchor);
            && (span.Some? <==> earliest <= anchor)
            && (span.Some? && day >= earliest - 1 ==> (span.value.0 <= day <= span.value.1 <==> !(day >= anchor)))
            && (span.Some? && day >= earliest ==> span.value.0 < day)
  {
  }

  /** Lands the FX history before the first day, once; zero, or the halt's code. */
  method LoadFxHistory(w: World) returns (r: Ended<int>)
    requires w.Valid()
    modifies w`env, w`log
    ensures w.Valid() && Evolved(old(w.env), w.env, {RunKey(Fx, w.anchor - 1)})
    ensures LogsRun(old(w.log), w.log, RunKey(Fx, w.anchor - 1))
    ensures r == Returned(0) && w.honest ==> HistoryDone(w.anchor, w.earliest, w.env)
    ensures old(HistoryDone(w.anchor, w.earliest, w.env)) ==>
              Evolved(old(w.env), w.env, {}) && w.log == old(w.log) && (r.Returned? ==> r.value == 0)
    ensures w.calm ==> r == Returned(0) && SameExtractions(old(w.env), w.env)
  {
    var key := RunKey(Fx, w.anchor - 1);
    ghost var start := w.env;
    var read := w.Reach();
    WiderTouch(start, w.env, {}, {key});
    var _ :- read;
    if HistoryDone(w.anchor, w.earliest, w.env) {
      return Returned(0);
    }
    ghost var looked := w.env;
    SourceNeverBeforeAnchor(w.anchor, w.log);
    var ran := TriggerAndWait(w, key);
    EvolvedChain(start, looked, w.env, {}, {key});
    assert {} + {key} == {key};
    var _ :- ran;
    var verdict := JudgeFeed(Fx, w.env.RunOf(key), w.env.FeedOf(key));
    return Returned(if verdict.failures == [] then 0 else 1);
  }

  // ---------------------------------------------------------------- the hold on the bronze build

  /** The operator's pause state is in the record while one exists, and in the DAG while none does. */
  predicate PauseKept(w: World, original: bool)
    reads w
  {
    if w.record.Some? then w.record.value == original && (original ==> w.paused) else w.paused == original
  }

  /** Pauses the bronze build for the loop, recording the state it found before the pause. */
  method HoldTransforms(w: World, ghost original: bool) returns (r: Ended<bool>)
    requires PauseKept(w, original)
    modifies w`paused, w`record
    ensures PauseKept(w, original)
    ensures r.Returned? ==> r.value == original && w.record == Some(original) && w.paused
    ensures w.calm ==> r.Returned?
  {
    var takes, ended := Effect(w.calm);
    var _ :- ended;
    var prior: bool;
    if w.record.None? {
      prior := w.paused;
      takes, ended := Effect(w.calm);
      if takes {
        w.record := Some(prior);
      }
      var _ :- ended;
    } else {
      prior := w.record.value;
    }
    if !prior {
      takes, ended := Effect(w.calm);
      if takes {
        w.paused := true;
      }
      var _ :- ended;
    }
    return Returned(prior);
  }

  /** Restores the recorded state, then drops the record. */
  method ReleaseTransforms(w: World, prior: bool) returns (r: Ended<()>)
    requires w.record == Some(prior) && PauseKept(w, prior)
    modifies w`paused, w`record
    ensures PauseKept(w, prior)
    ensures r.Returned? ==> w.record == None && w.paused == prior
    ensures w.calm ==> r.Returned?
  {
    var takes, ended := Effect(w.calm);
    if takes {
      w.paused := prior;
    }
    var _ :- ended;
    takes, ended := Effect(w.calm);
    if takes {
      w.record := None;
    }
    return ended;
  }

  /** The body the hold is around: the FX history, then the days. */
  method Ingest(w: World, start: int, end: int) returns (r: Ended<int>)
    requires w.Valid() && 1 <= start <= end && MayLeave(w.env, w.simulated, w.log, start)
    modifies w`env, w`log, w`simulated
    ensures w.Valid() && w.simulated >= old(w.simulated) && Worked(old(w.log), w.log)
    ensures r == Returned(0) ==> DoneWith(w.env, end)
    ensures r == Returned(0) && w.honest ==> Finished(w, start, end + 1)
    ensures old(Finished(w, start, end + 1)) ==> w.log == old(w.log) && (r.Returned? ==> r.value == 0)
    ensures w.calm && old(Ahead(w.env, w.simulated, start, end)) ==>
              r == Returned(0) && w.simulated == Later(old(w.simulated), end)
  {
    ghost var before := w.env;
    var loaded := LoadFxHistory(w);
    ghost var log := w.log;
    HistoryLeavesTheDays(before, w.env, w.anchor, start, end + 1, w.simulated);
    HistoryKeepsLeave(w.catalogue, before, w.env, w.simulated, old(w.log), w.log, start, RunKey(Fx, w.anchor - 1));
    RunIsWork(old(w.log), w.log, RunKey(Fx, w.anchor - 1));
    var code :- loaded;
    if code != 0 {
      return Returned(code);
    }
    r := IngestDays(w, start, end);
    WorkedChain(old(w.log), log, w.log);
  }

  /** Nothing is left to do for a range: every day of it is complete, and the FX history is landed. */
  ghost predicate Finished(w: World, start: int, until: int)
    requires start >= 1
    reads w
  {
    HistoryDone(w.anchor, w.earliest, w.env) && RangeComplete(w.env, start, until)
  }

  lemma {:induction false} RunIsWork(before: seq<Action>, after: seq<Action>, key: RunKey)
    requires LogsRun(before, after, key)
    ensures Worked(before, after)
  {
  }

  /** Loading the history starts no extraction, so the range's first tick may still be made. */
  lemma {:induction false} HistoryKeepsLeave(
    catalogue: Catalogue, a: Env, b: Env, simulated: int, before: seq<Action>, after: seq<Action>, day: int,
    key: RunKey)
    requires Evolved(a, b, {key}) && Known(catalogue, b) && !key.dag.Relational() && LogsRun(before, after, key)
    requires MayLeave(a, simulated, before, day)
    ensures MayLeave(b, simulated, after, day)
  {
    EvolutionKeepsLeave(catalogue, a, b, {key}, simulated, before, day);
    if after != before {
      assert after[..|after| - 1] == before;
    }
  }

  /** Where there is nothing to load the history leaves the range as it is. */
  lemma {:induction false} HistoryLeavesTheDays(a: Env, b: Env, anchor: int, start: int, until: int, simulated: int)
    requires start >= 1 && Evolved(a, b, {RunKey(Fx, anchor - 1)})
    ensures RangeComplete(a, start, until) && Evolved(a, b, {}) ==> RangeComplete(b, start, until)
    ensures Ahead(a, simulated, start, until - 1) && SameExtractions(a, b) ==> Ahead(b, simulated, start, until - 1)
  {
    if RangeComplete(a, start, until) && Evolved(a, b, {}) {
      OtherDaysStand(a, b, start, until, {});
    }
    if Ahead(a, simulated, start, until - 1) && SameExtractions(a, b) {
      forall d | start <= d <= until - 1 && d != simulated
        ensures RelationalIdle(b, d) && (d < simulated <==> BothComplete(b.BatchesOf(d)))
      {
        assert RelationalIdle(a, d) && (d < simulated <==> BothComplete(a.BatchesOf(d)));
        assert b.RunOf(RunKey(Reference, d)) == a.RunOf(RunKey(Reference, d));
        assert b.RunOf(RunKey(Core, d)) == a.RunOf(RunKey(Core, d));
      }
    }
  }

  /** Waits for the builds a backfill set off; one when the last of them failed. */
  method Settle(w: World) returns (r: Ended<int>)
    requires w.Valid()
    modifies w`env
    ensures w.Valid() && Evolved(old(w.env), w.env, {})
    ensures r.Returned? ==> r.value == 0 || r.value == 1
    ensures w.calm ==> r == Returned(0)
  {
    var _ :- w.Reach();
    var good: bool := *;
    return Returned(if good || w.calm then 0 else 1);
  }

  /** The one build of what the backfill landed. */
  method BuildOnce(w: World) returns (r: Ended<()>)
    requires w.Valid()
    modifies w`env, w`log
    ensures w.Valid() && Evolved(old(w.env), w.env, {})
    ensures w.log == old(w.log) || w.log == old(w.log) + [Built]
    ensures r.Returned? ==> w.log == old(w.log) + [Built]
    ensures w.calm ==> r.Returned?
  {
    var _ :- w.Reach();
    var takes;
    takes, r := Effect(w.calm);
    if takes {
      SafeAppend(w.anchor, w.log, Built);
      AccountedFurther(w.env, w.simulated, w.log, Built);
      w.log := w.log + [Built];
    }
  }

  /** An invocation begins its range, and finds what is going. */
  method Begin(w: World, start: int)
    requires w.Valid()
    modifies w`log
    ensures w.Valid() && w.log == old(w.log) + [Began(start, Running(w.env))]
    ensures MayLeave(w.env, w.simulated, w.log, start)
  {
    SafeAppend(w.anchor, w.log, Began(start, Running(w.env)));
    AccountedFurther(w.env, w.simulated, w.log, Began(start, Running(w.env)));
    w.log := w.log + [Began(start, Running(w.env))];
  }

  /** An invocation has succeeded. */
  method Close(w: World, end: int)
    requires w.Valid() && RelationalIdle(w.env, end)
    modifies w`log
    ensures w.Valid() && w.log == old(w.log) + [Passed(end)]
  {
    SafeAppend(w.anchor, w.log, Passed(end));
    AccountedFurther(w.env, w.simulated, w.log, Passed(end));
    w.log := w.log + [Passed(end)];
  }

  /** An invocation over finished work: it begins, builds once unless the build was paused, and does nothing else. */
  ghost predicate NothingRedone(
    before: seq<Action>, after: seq<Action>, range: Range, original: bool, ended: Ended<int>)
  {
    var passed := if ended == Returned(0) then [Passed(range.end)] else [];
    && before < after
    && ((after[|before| + 1..] == passed && (ended == Returned(0) ==> original))
        || (after[|before| + 1..] == [Built] + passed && !original))
  }

  /** One invocation over a range. A kill leaves the pause record behind; an exception still restores the flag. */
  method Invoke(w: World, range: Range, ghost original: bool) returns (r: Ended<int>)
    requires w.Valid() && range.start >= 1 && PauseKept(w, original)
    modifies w
    ensures w.Valid() && PauseKept(w, original) && w.simulated >= old(w.simulated)
    ensures Invocation(range, r, old(w.log), w.log)
    ensures !range.Refused() ==> w.log[|old(w.log)|] == Began(range.start, old(Running(w.env)))
    ensures r.Returned? ==> w.record == None && w.paused == original
    ensures r == Returned(0) ==> DoneWith(w.env, range.end)
    ensures r == Returned(0) && w.honest ==> Finished(w, range.start, range.end + 1)
    ensures old(Finished(w, range.start, range.end + 1)) && !range.Refused() ==>
              NothingRedone(old(w.log), w.log, range, original, r)
    ensures w.calm && !range.Refused() && old(Ahead(w.env, w.simulated, range.start, range.end)) ==>
              r == Returned(0) && w.simulated == Later(old(w.simulated), range.end)
  {
    if range.Refused() {
      return Raised;
    }
    Begin(w, range.start);
    ghost var begun := w.log;
    r := Attempt(w, range.start, range.end, original);
    ghost var worked := w.log;
    if r == Returned(0) {
      Close(w, range.end);
    }
    InvocationIsLogged(range, r, old(w.log), begun, worked, w.log);
  }

  lemma {:induction false} InvocationIsLogged(
    range: Range, ended: Ended<int>, before: seq<Action>, begun: seq<Action>, worked: seq<Action>, after: seq<Action>)
    requires !range.Refused() && |begun| == |before| + 1 && before <= begun
    requires begun[|before|].Began? && begun[|before|].start == range.start && Worked(begun, worked)
    requires after == worked + if ended == Returned(0) then [Passed(range.end)] else []
    ensures Invocation(range, ended, before, after) && after[|before|] == begun[|before|]
    ensures after[|before| + 1..] == worked[|begun|..] + if ended == Returned(0) then [Passed(range.end)] else []
  {
    if ended == Returned(0) {
      assert after[|before| + 1..|after| - 1] == worked[|begun|..];
    } else {
      assert after[|before| + 1..] == worked[|begun|..];
    }
  }

  /** What an invocation does: the loop under the hold, and then the one build unless it was paused before. */
  method Attempt(w: World, start: int, end: int, ghost original: bool) returns (r: Ended<int>)
    requires w.Valid() && 1 <= start <= end && PauseKept(w, original) && MayLeave(w.env, w.simulated, w.log, start)
    modifies w
    ensures w.Valid() && PauseKept(w, original) && w.simulated >= old(w.simulated) && Worked(old(w.log), w.log)
    ensures r.Returned? ==> w.record == None && w.paused == original
    ensures r == Returned(0) ==> DoneWith(w.env, end)
    ensures r == Returned(0) && w.honest ==> Finished(w, start, end + 1)
    ensures old(Finished(w, start, end + 1)) ==>
              (w.log == old(w.log) && (r == Returned(0) ==> original)) || (w.log == old(w.log) + [Built] && !original)
    ensures w.calm && old(Ahead(w.env, w.simulated, start, end)) ==>
              r == Returned(0) && w.simulated == Later(old(w.simulated), end)
  {
    var prior :- HoldTransforms(w, original);
    var code := IngestAndRelease(w, start, end, prior);
    ghost var log := w.log;
    var halted :- code;
    if halted != 0 || prior {
      return Returned(halted);
    }
    r := Build(w, start, end);
    WorkedChain(old(w.log), log, w.log);
  }

  /** The loop under the hold, and the release that follows it whether it returned or raised. */
  method IngestAndRelease(w: World, start: int, end: int, prior: bool) returns (r: Ended<int>)
    requires w.Valid() && 1 <= start <= end && w.record == Some(prior) && PauseKept(w, prior)
    requires MayLeave(w.env, w.simulated, w.log, start)
    modifies w
    ensures w.Valid() && PauseKept(w, prior) && w.simulated >= old(w.simulated) && Worked(old(w.log), w.log)
    ensures r.Returned? ==> w.record == None && w.paused == prior
    ensures r == Returned(0) ==> DoneWith(w.env, end)
    ensures r == Returned(0) && w.honest ==> Finished(w, start, end + 1)
    ensures old(Finished(w, start, end + 1)) ==> w.log == old(w.log) && (r.Returned? ==> r.value == 0)
    ensures w.calm && old(Ahead(w.env, w.simulated, start, end)) ==>
              r == Returned(0) && w.simulated == Later(old(w.simulated), end)
  {
    var code := Ingest(w, start, end);
    if code.Killed? {
      return Killed;
    }
    var _ :- ReleaseTransforms(w, prior);
    return code;
  }

  /** The one bronze build, and the silver build it sets off. */
  method Build(w: World, ghost start: int, ghost end: int) returns (r: Ended<int>)
    requires w.Valid() && start >= 1
    modifies w`env, w`log
    ensures w.Valid()
    ensures old(Finished(w, start, end + 1)) ==> Finished(w, start, end + 1)
    ensures old(DoneWith(w.env, end)) ==> DoneWith(w.env, end)
    ensures w.log == old(w.log) || w.log == old(w.log) + [Built]
    ensures r.Returned? ==> w.log == old(w.log) + [Built]
    ensures w.calm ==> r == Returned(0)
  {
    ghost var before := w.env;
    var built := BuildOnce(w);
    ghost var making := w.env;
    if built.Returned? {
      r := SettleBoth(w);
    } else {
      r := built.PropagateFailure();
    }
    EvolvedChain(before, making, w.env, {}, {});
    BuildStands(w.catalogue, before, w.env, start, end);
  }

  /** Waits for the bronze build, then for the silver one. */
  method SettleBoth(w: World) returns (r: Ended<int>)
    requires w.Valid()
    modifies w`env
    ensures w.Valid() && Evolved(old(w.env), w.env, {})
    ensures w.calm ==> r == Returned(0)
  {
    ghost var before := w.env;
    var failed :- Settle(w);
    if failed != 0 {
      return Returned(failed);
    }
    ghost var made := w.env;
    r := Settle(w);
    EvolvedChain(before, made, w.env, {}, {});
  }

  lemma {:induction false} BuildStands(catalogue: Catalogue, a: Env, b: Env, start: int, end: int)
    requires start >= 1 && Evolved(a, b, {}) && Known(catalogue, b)
    ensures RangeComplete(a, start, end + 1) ==> RangeComplete(b, start, end + 1)
    ensures DoneWith(a, end) ==> DoneWith(b, end)
  {
    if RangeComplete(a, start, end + 1) {
      OtherDaysStand(a, b, start, end + 1, {});
    }
    if DoneWith(a, end) {
      EvolutionKeepsDone(catalogue, a, b, {}, end);
    }
  }

  // ---------------------------------------------------------------- any number of invocations

  /** Between invocations runs go on, and anything may happen to the feeds' batches that the world's assumptions allow,
      as long as what is complete of `kept` stays so. */
  method Interlude(w: World, kept: set<RunKey>)
    requires w.Valid()
    modifies w`env
    ensures w.Valid() && old(w.env.histories) <= w.env.histories
    ensures forall day :: old(RelationalIdle(w.env, day)) ==> RelationalIdle(w.env, day)
    ensures forall day :: old(w.env.BatchesOf(day)) <= w.env.BatchesOf(day)
    ensures forall key :: key in kept && old(FeedDone(w.env, key)) ==> FeedDone(w.env, key)
  {
    ghost var before := w.env;
    var _ := w.Reach();
    var reached := w.env;
    forall day | RelationalIdle(before, day) ensures RelationalIdle(reached, day) {
      EvolutionKeepsIdle(before, reached, {}, RunKey(Reference, day));
      EvolutionKeepsIdle(before, reached, {}, RunKey(Core, day));
    }
    forall key | key in kept && FeedDone(before, key) ensures FeedDone(reached, key) {
      EvolutionKeepsFeed(before, reached, {}, key);
    }
    var feeds: map<RunKey, seq<FeedBatch>> := *;
    var changed := reached.(feeds := feeds);
    if (!w.honest || HistoryHonest(w.anchor, w.earliest, changed))
       && forall key :: key in kept && FeedDone(reached, key) ==> FeedDone(changed, key) {
      assert forall day :: changed.BatchesOf(day) == reached.BatchesOf(day);
      assert Running(changed) == Running(reached);
      w.env := changed;
    }
  }

  /** One invocation, after whatever happened since the last. */
  method Next(w: World, range: Range, ghost original: bool) returns (ended: Ended<int>)
    requires w.Valid() && PauseKept(w, original) && range.start >= 1
    modifies w
    ensures w.Valid() && PauseKept(w, original) && (ended.Returned? ==> w.record == None && w.paused == original)
    ensures w.simulated >= old(w.simulated) && Invocation(range, ended, old(w.log), w.log)
    ensures ended == Returned(0) ==> DoneWith(w.env, range.end)
    ensures ended == Returned(0) && w.honest ==> Finished(w, range.start, range.end + 1)
  {
    Interlude(w, {});
    ended := Invoke(w, range, original);
  }

  /** The feeds due over a range. */
  function FeedRuns(start: int, until: int): set<RunKey>
    requires start >= 1
  {
    set day: int, dag: Dag | start <= day < until && dag in FeedsDue(day) :: RunKey(dag, day)
  }

  /** What was finished still is, once its feeds are. */
  lemma {:induction false} FinishedStands(
    a: Env, b: Env, anchor: int, earliest: Option<int>, start: int, until: int)
    requires start >= 1 && RangeComplete(a, start, until) && HistoryDone(anchor, earliest, a)
    requires a.histories <= b.histories && forall day :: a.BatchesOf(day) <= b.BatchesOf(day)
    requires forall day :: RelationalIdle(a, day) ==> RelationalIdle(b, day)
    requires forall key :: key in FeedRuns(start, until) && FeedDone(a, key) ==> FeedDone(b, key)
    ensures RangeComplete(b, start, until) && HistoryDone(anchor, earliest, b)
  {
    forall day | start <= day < until ensures DayComplete(b, day) {
      assert DayComplete(a, day);
      GrowthKeepsComplete(a.BatchesOf(day), b.BatchesOf(day), Reference);
      GrowthKeepsComplete(a.BatchesOf(day), b.BatchesOf(day), Core);
      forall dag | dag in FeedsDue(day) ensures FeedDone(b, RunKey(dag, day)) {
        assert RunKey(dag, day) in FeedRuns(start, until);
      }
    }
  }

  /** An invocation over work that is finished, after anything else that may happen in between, as long as it leaves the
      range's feeds complete: nothing is delivered, ticked or ingested, and unless the build is paused it is triggered
      once. */
  method Again(w: World, range: Range, ghost original: bool) returns (r: Ended<int>)
    requires w.Valid() && PauseKept(w, original)
    requires range.start >= 1 && !range.Refused() && Finished(w, range.start, range.end + 1)
    modifies w
    ensures w.Valid() && PauseKept(w, original)
    ensures Invocation(range, r, old(w.log), w.log) && NothingRedone(old(w.log), w.log, range, original, r)
  {
    ghost var done := w.env;
    Interlude(w, FeedRuns(range.start, range.end + 1));
    FinishedStands(done, w.env, w.anchor, w.earliest, range.start, range.end + 1);
    r := Invoke(w, range, original);
  }

  /** An invocation that succeeded, repeated over the same range. */
  method Repeat(w: World, range: Range, ghost original: bool)
    returns (first: Ended<int>, second: Ended<int>, ghost between: seq<Action>)
    requires w.Valid() && range.start >= 1 && PauseKept(w, original)
    modifies w
    ensures w.Valid() && PauseKept(w, original)
    ensures Invocation(range, first, old(w.log), between) && Invocation(range, second, between, w.log)
    ensures first == Returned(0) && w.honest ==> NothingRedone(between, w.log, range, original, second)
  {
    first := Invoke(w, range, original);
    between := w.log;
    if first == Returned(0) && w.honest {
      second := Again(w, range, original);
    } else {
      second := Next(w, range, original);
    }
  }

  /** The log before each of these invocations and after the last. */
  ghost predicate Invocations(ranges: seq<Range>, ends: seq<Ended<int>>, logs: seq<seq<Action>>) {
    && |ends| == |ranges| && |logs| == |ranges| + 1
    && forall k :: 0 <= k < |ranges| ==> Invocation(ranges[k], ends[k], logs[k], logs[k + 1])
  }

  lemma {:induction false} OneMoreInvocation(
    ranges: seq<Range>, ends: seq<Ended<int>>, logs: seq<seq<Action>>, range: Range, ended: Ended<int>,
    log: seq<Action>)
    requires Invocations(ranges, ends, logs) && Invocation(range, ended, logs[|ranges|], log)
    ensures Invocations(ranges + [range], ends + [ended], logs + [log])
  {
    var all, more, longer := ranges + [range], ends + [ended], logs + [log];
    forall k | 0 <= k < |all| ensures Invocation(all[k], more[k], longer[k], longer[k + 1]) {
      if k < |ranges| {
        assert all[k] == ranges[k] && more[k] == ends[k] && longer[k] == logs[k] && longer[k + 1] == logs[k + 1];
      }
    }
  }

  lemma {:induction false} LogsGrow(ranges: seq<Range>, ends: seq<Ended<int>>, logs: seq<seq<Action>>, k: nat)
    requires Invocations(ranges, ends, logs) && k <= |ranges|
    ensures logs[k] <= logs[|ranges|]
    decreases |ranges| - k
  {
    if k < |ranges| {
      LogsGrow(ranges, ends, logs, k + 1);
    }
  }

  /** The guard holds of an invocation that begins the day after one that succeeded. */
  ghost predicate FollowsSuccessGuarded(
    ranges: seq<Range>, ends: seq<Ended<int>>, logs: seq<seq<Action>>, k: nat)
    requires Invocations(ranges, ends, logs) && 0 < k < |ranges|
  {
    ends[k - 1] == Returned(0) && ranges[k].start == ranges[k - 1].end + 1 && !ranges[k].Refused() ==>
      NoneOf(logs[k + 1][|logs[k]|].running, ranges[k].start - 1)
  }

  lemma {:induction false} SuccessGuardsTheNext(
    anchor: int, ranges: seq<Range>, ends: seq<Ended<int>>, logs: seq<seq<Action>>, k: nat)
    requires Invocations(ranges, ends, logs) && Safe(anchor, logs[|ranges|]) && 0 < k < |ranges|
    ensures FollowsSuccessGuarded(ranges, ends, logs, k)
  {
    if ends[k - 1] == Returned(0) && !ranges[k].Refused() {
      var log, i := logs[|ranges|], |logs[k]|;
      LogsGrow(ranges, ends, logs, k);
      LogsGrow(ranges, ends, logs, k + 1);
      assert log[..i] == logs[k] && log[i] == logs[k + 1][i];
      assert Invocation(ranges[k - 1], ends[k - 1], logs[k - 1], logs[k]);
      SafeEverywhere(anchor, log, i);
    }
  }

  /** What is known after some of the invocations. */
  ghost predicate Invoked(
    w: World, ranges: seq<Range>, ends: seq<Ended<int>>, logs: seq<seq<Action>>, original: bool)
    reads w
  {
    var n := |ranges|;
    && w.Valid() && PauseKept(w, original) && Invocations(ranges, ends, logs) && logs[n] == w.log
    && (n > 0 && ends[n - 1].Returned? ==> w.record == None && w.paused == original)
  }

  /** Over any sequence of invocations, over any ranges, killed or raising anywhere: every action was safe, the
      operator's pause state is never lost, and the first invocation that finishes has restored it. The source never
      moves under a running extraction if each invocation that begins the day after the source's finds none of that
      day running, and one that begins the day after a range that succeeded does. */
  method AnyInvocations(w: World, ranges: seq<Range>, ghost original: bool)
    returns (ends: seq<Ended<int>>, ghost logs: seq<seq<Action>>)
    requires w.Valid() && PauseKept(w, original)
    requires forall k :: 0 <= k < |ranges| ==> ranges[k].start >= 1
    modifies w
    ensures Invocations(ranges, ends, logs) && logs[0] == old(w.log) && logs[|ranges|] == w.log && old(w.log) <= w.log
    ensures w.Valid() && Safe(w.anchor, w.log) && w.simulated == SourceAt(w.anchor, w.log)
    ensures PauseKept(w, original)
    ensures ends != [] && ends[|ends| - 1].Returned? ==> w.record == None && w.paused == original
    ensures Guarded(w.anchor, w.log) ==> TicksAlone(w.log)
    ensures forall k :: 0 < k < |ranges| ==> FollowsSuccessGuarded(ranges, ends, logs, k)
  {
    ends, logs := [], [w.log];
    for i := 0 to |ranges|
      invariant Invoked(w, ranges[..i], ends, logs, original) && logs[0] == old(w.log)
    {
      var ended := Next(w, ranges[i], original);
      OneMoreInvocation(ranges[..i], ends, logs, ranges[i], ended, w.log);
      assert ranges[..i + 1] == ranges[..i] + [ranges[i]];
      ends, logs := ends + [ended], logs + [w.log];
    }
    assert ranges[..|ranges|] == ranges;
    LogsGrow(ranges, ends, logs, 0);
    if Guarded(w.anchor, w.log) {
      GuardedTicksAlone(w.anchor, w.log);
    }
    forall k | 0 < k < |ranges| ensures FollowsSuccessGuarded(ranges, ends, logs, k) {
      SuccessGuardsTheNext(w.anchor, ranges, ends, logs, k);
    }
  }

  // ---------------------------------------------------------------- where the guard fails

  /** With an empty registry both extractions of any day are left. */
  lemma {:induction false} NothingRegistered(env: Env, day: int)
    requires env.registry == map[]
    ensures Pending(env.BatchesOf(day)) == [Reference, Core]
  {
    assert RegisteredEntities(env.BatchesOf(day), Reference) == {} == RegisteredEntities(env.BatchesOf(day), Core);
  }

  /** A seeded stack in which only the reference extraction of its first day has been started. */
  function OnlyStarted(anchor: int): Env {
    Env(map[], map[], map[], {}).Starting(RunKey(Reference, anchor))
  }

  /** The guard can fail: a seeded stack whose first day was delivered and whose reference extraction was started, which
      is where an invocation killed just then leaves it. */
  method GuardCanFail(anchor: int, catalogue: Catalogue) returns (w: World)
    requires catalogue.Sound()
    ensures fresh(w) && w.Valid() && w.simulated == w.anchor == anchor && w.calm && TicksAlone(w.log)
    ensures w.env == OnlyStarted(anchor) && !NoneOf(Running(w.env), anchor)
  {
    w := new World(anchor, None, catalogue, true, true, false);
    var key := RunKey(Reference, anchor);
    var _ := Deliver(w, anchor);
    NothingRegistered(w.env, anchor);
    var _ := StartRun(w, key);
    assert key in Running(w.env) && key.dag.Relational();
  }

  /** And then it matters: the loop's own first steps over the next day tick the source under that extraction. */
  method TickUnderExtraction(anchor: int, catalogue: Catalogue) returns (w: World)
    requires catalogue.Sound() && anchor >= 0
    ensures fresh(w) && w.Valid() && w.simulated == anchor + 1 && !TicksAlone(w.log)
  {
    w := GuardCanFail(anchor, catalogue);
    Begin(w, anchor + 1);
    ghost var begun := w.env;
    var read := ReadDay(w, anchor + 1);
    NothingElseRead(begun, w.env, anchor);
    var _ := PrepareSource(w, anchor + 1, read.value.pending);
    UnguardedTickIsNotAlone(w.env, anchor, w.log[..|w.log| - 1]);
    assert w.log == w.log[..|w.log| - 1] + [TickTo(w.env, anchor + 1)];
  }

  /** Reading the next day changes nothing of it, and the extraction is still going. */
  lemma {:induction false} NothingElseRead(begun: Env, env: Env, anchor: int)
    requires begun == OnlyStarted(anchor) && SameExtractions(begun, env)
    ensures Pending(env.BatchesOf(anchor + 1)) == [Reference, Core] && !NoneOf(Running(env), anchor)
  {
    var key := RunKey(Reference, anchor);
    NothingRegistered(begun, anchor + 1);
    assert env.RunOf(key) == begun.RunOf(key) == Some(Run.Active);
    assert key in Running(env) && key.dag.Relational();
  }

  /** The guard is exact. Whatever the world, a range that begins the day after the source's passes every check and may
      tick at once; that tick finds the source's extractions at rest if and only if the guard holds. */
  lemma {:induction false} TheGuardIsExact(w: World)
    requires w.Valid() && TicksAlone(w.log) && !BothComplete(w.env.BatchesOf(w.simulated + 1))
    ensures var began, tick := Began(w.simulated + 1, Running(w.env)), TickTo(w.env, w.simulated + 1);
            && TickNeeded(w.simulated + 1, w.simulated, w.anchor, true) == Tick
            && SafeStep(w.anchor, w.log, began) && SafeStep(w.anchor, w.log + [began], tick)
            && (TicksAlone(w.log + [began, tick]) <==> NoneOf(Running(w.env), w.simulated))
  {
    SourceNeverBeforeAnchor(w.anchor, w.log);
    var began, tick := Began(w.simulated + 1, Running(w.env)), TickTo(w.env, w.simulated + 1);
    assert (w.log + [began])[..|w.log|] == w.log;
    AccountedFurther(w.env, w.simulated, w.log, began);
    var longer := w.log + [began, tick];
    assert longer[|w.log| + 1] == tick && longer[|w.log|] == began;
    assert forall key :: key in Running(w.env) && key.dag.Relational() ==> key.day == w.simulated by {
      assert forall key :: key in Running(w.env) && key.dag.Relational() ==> !Stranded(w.log, key);
    }
    assert forall i :: 0 <= i < |w.log| ==> longer[i] == w.log[i];
    assert TicksAlone(longer) <==> NoneRelational(tick.running);
  }

  /** Without the guard no history and no other run makes up for it. */
  lemma {:induction false} UnguardedTickIsNotAlone(env: Env, simulated: int, log: seq<Action>)
    requires !NoneOf(Running(env), simulated)
    ensures !TicksAlone(log + [TickTo(env, simulated + 1)])
  {
    var longer := log + [TickTo(env, simulated + 1)];
    assert longer[|log|].Ticked? && !NoneRelational(longer[|log|].running);
  }
}
