/** What the batch registry says of a day: which entities registered, and what became of each feed's batches. */
module Registry {
  import opened Rows
  import Calendar

  datatype Dag = Reference | Core | Settlement | Fx | Sanctions | Macro {
    /** Reference data and core banking read the source; the feeds do not. */
    predicate Relational() {
      Reference? || Core?
    }

    function Expected(): nat
      requires Relational()
    {
      if Core? then 16 else 29
    }
  }

  // ---------------------------------------------------------------- the relational extractions

  /** An ended batch of one of the two relational DAGs, registered or failed. */
  datatype Batch = Batch(owner: Dag, entity: string, registered: bool)

  /** The entities each relational DAG extracts. */
  datatype Catalogue = Catalogue(reference: set<string>, core: set<string>) {
    function Of(dag: Dag): set<string> {
      if dag == Core then core else reference
    }

    ghost predicate Sound() {
      |reference| == Reference.Expected() && |core| == Core.Expected() && reference !! core
    }

    /** Every batch is one of the catalogue's entities. */
    ghost predicate Knows(batches: set<Batch>) {
      forall b :: b in batches ==> b.owner.Relational() && b.entity in Of(b.owner)
    }
  }

  function RegisteredEntities(batches: set<Batch>, dag: Dag): set<string> {
    set b | b in batches && b.registered && b.owner == dag :: b.entity
  }

  predicate RelationalComplete(batches: set<Batch>, dag: Dag)
    requires dag.Relational()
  {
    |RegisteredEntities(batches, dag)| >= dag.Expected()
  }

  /** Nothing of a day is left to extract. */
  predicate BothComplete(batches: set<Batch>) {
    RelationalComplete(batches, Reference) && RelationalComplete(batches, Core)
  }

  /** Reference data is complete with twenty-nine entities registered and core banking with sixteen. */
  lemma {:induction false} CompleteIsByCount(batches: set<Batch>)
    ensures RelationalComplete(batches, Reference)
            <==> |set b | b in batches && b.registered && b.owner == Reference :: b.entity| >= 29
    ensures RelationalComplete(batches, Core)
            <==> |set b | b in batches && b.registered && b.owner == Core :: b.entity| >= 16
  {
    assert RegisteredEntities(batches, Reference)
           == set b | b in batches && b.registered && b.owner == Reference :: b.entity;
    assert RegisteredEntities(batches, Core) == set b | b in batches && b.registered && b.owner == Core :: b.entity;
  }

  predicate NameRegistered(batches: set<Batch>, entity: string) {
    exists b :: b in batches && b.registered && b.entity == entity
  }

  /** The failed batches the loop halts for. A registered batch of the same entity name accounts for a failed one,
      whichever schema it belongs to. */
  function Outstanding(batches: set<Batch>): set<Batch> {
    set b | b in batches && !b.registered && !NameRegistered(batches, b.entity)
  }

  /** A terminal relational run leaves every entity it extracts registered or failed. */
  predicate AllEnded(catalogue: Catalogue, batches: set<Batch>, dag: Dag) {
    forall e :: e in catalogue.Of(dag) ==> Batch(dag, e, true) in batches || Batch(dag, e, false) in batches
  }

  /** Counting entities is enough: with the catalogue's sizes, complete means every single one registered. */
  lemma {:induction false} CompleteMeansEveryEntity(catalogue: Catalogue, batches: set<Batch>, dag: Dag)
    requires dag.Relational() && |catalogue.Of(dag)| == dag.Expected() && catalogue.Knows(batches)
    ensures RelationalComplete(batches, dag) <==> RegisteredEntities(batches, dag) == catalogue.Of(dag)
  {
    var registered, all := RegisteredEntities(batches, dag), catalogue.Of(dag);
    assert registered <= all;
    assert all == registered + (all - registered);
  }

  /** The halt test, keyed on entity names alone, finds every failure exactly when no name is in both schemas. */
  lemma {:induction false} HaltSeesEveryFailure(catalogue: Catalogue)
    ensures (forall batches: set<Batch> :: catalogue.Knows(batches) && Outstanding(batches) == {} ==>
               forall b: Batch :: b in batches ==> b.(registered := true) in batches)
            <==> catalogue.reference !! catalogue.core
  {
    if catalogue.reference !! catalogue.core {
      forall batches: set<Batch>, b: Batch | catalogue.Knows(batches) && Outstanding(batches) == {} && b in batches
        ensures b.(registered := true) in batches
      {
        FailureAccounted(catalogue, batches, b);
      }
    } else {
      var name :| name in catalogue.reference && name in catalogue.core;
      var batches := {Batch(Core, name, false), Batch(Reference, name, true)};
      assert NameRegistered(batches, name) by {
        assert Batch(Reference, name, true) in batches;
      }
      assert catalogue.Knows(batches) && Outstanding(batches) == {};
      assert Batch(Core, name, false) in batches && Batch(Core, name, true) !in batches;
    }
  }

  lemma {:induction false} FailureAccounted(catalogue: Catalogue, batches: set<Batch>, b: Batch)
    requires catalogue.reference !! catalogue.core && catalogue.Knows(batches)
    requires Outstanding(batches) == {} && b in batches
    ensures b.(registered := true) in batches
  {
    if !b.registered {
      assert b !in Outstanding(batches);
      var other :| other in batches && other.registered && other.entity == b.entity;
      assert other == b.(registered := true);
    }
  }

  /** A relational run that ended with nothing outstanding completed its DAG. */
  lemma {:induction false} EndedIsComplete(catalogue: Catalogue, batches: set<Batch>, dag: Dag)
    requires catalogue.Sound() && catalogue.Knows(batches) && dag.Relational()
    requires AllEnded(catalogue, batches, dag) && Outstanding(batches) == {}
    ensures RelationalComplete(batches, dag)
  {
    forall e | e in catalogue.Of(dag) ensures Batch(dag, e, true) in batches {
      if Batch(dag, e, true) !in batches {
        FailureAccounted(catalogue, batches, Batch(dag, e, false));
      }
    }
    forall e ensures e in RegisteredEntities(batches, dag) <==> e in catalogue.Of(dag) {
      if e in catalogue.Of(dag) {
        assert Batch(dag, e, true) in batches;
      }
    }
    CompleteMeansEveryEntity(catalogue, batches, dag);
  }

  lemma {:induction false} GrowthKeepsComplete(before: set<Batch>, after: set<Batch>, dag: Dag)
    requires before <= after && dag.Relational() && RelationalComplete(before, dag)
    ensures RelationalComplete(after, dag)
  {
    var some, all := RegisteredEntities(before, dag), RegisteredEntities(after, dag);
    assert all == some + (all - some);
  }

  // ---------------------------------------------------------------- the feeds

  datatype Run = Active | Succeeded | Failed

  datatype Status = Open | Registered | Rejected

  /** Why a batch failed, told apart by how the recorded reason begins. */
  datatype Reason = Malformed(text: string) | Conflict(text: string) | OtherReason(text: string) | Unstated

  /** What became of the delivery a failed batch attempted. */
  datatype Delivery = NoDelivery | Landed | Parked

  datatype FeedBatch = FeedBatch(entity: string, interval: int, status: Status, reason: Reason, delivery: Delivery)

  /** Refusals a sender resolves by sending again. */
  predicate SenderResolves(reason: Reason) {
    reason.Malformed? || reason.Conflict?
  }

  predicate SameRegistered(batches: seq<FeedBatch>, b: FeedBatch) {
    exists i :: 0 <= i < |batches| && batches[i].status == Registered && batches[i].entity == b.entity
                && batches[i].interval == b.interval
  }

  /** A failed batch nobody has to act on here: landed since, parked for its sender, or superseded by a later try. */
  predicate AccountedFor(batches: seq<FeedBatch>, b: FeedBatch) {
    match b.delivery
    case Landed => true
    case Parked => SenderResolves(b.reason)
    case NoDelivery => SameRegistered(batches, b)
  }

  predicate AnyRefused(batches: seq<FeedBatch>) {
    exists i :: 0 <= i < |batches| && batches[i].status == Rejected
  }

  /** The run happened, every failed batch is accounted for, and a failed run has a failed batch to say why. */
  predicate FeedComplete(run: Option<Run>, batches: seq<FeedBatch>) {
    && run.Some?
    && (forall i :: 0 <= i < |batches| && batches[i].status == Rejected ==> AccountedFor(batches, batches[i]))
    && (run.value == Failed ==> AnyRefused(batches))
  }

  /** A feed is complete exactly when it ran, no rejected batch is left that was neither landed, nor parked as malformed
      or conflicting, nor, without a delivery, followed by a registered one of the same entity and interval, and, if the
      run failed, some batch was rejected. */
  lemma {:induction false} FeedIsCompleteExactly(run: Option<Run>, batches: seq<FeedBatch>)
    ensures FeedComplete(run, batches) <==>
              && run != None && (run == Some(Failed) ==> exists b :: b in batches && b.status == Rejected)
              && forall b :: b in batches && b.status == Rejected ==>
                  || b.delivery == Landed
                  || (b.delivery == Parked && (b.reason.Malformed? || b.reason.Conflict?))
                  || (b.delivery == NoDelivery
                      && exists other :: other in batches && other.status == Registered && other.entity == b.entity
                                         && other.interval == b.interval)
  {
    forall b | b in batches
      ensures SameRegistered(batches, b) <==>
                exists other :: other in batches && other.status == Registered && other.entity == b.entity
                                && other.interval == b.interval
    {
      if SameRegistered(batches, b) {
        var i :| 0 <= i < |batches| && batches[i].status == Registered && batches[i].entity == b.entity
                 && batches[i].interval == b.interval;
        assert batches[i] in batches;
      }
    }
    assert forall i :: 0 <= i < |batches| ==> batches[i] in batches;
  }

  datatype Failure = OfBatch(batch: FeedBatch) | OfRun(dag: Dag)

  datatype FeedDay = FeedDay(complete: bool, parked: seq<FeedBatch>, failures: seq<Failure>)

  method JudgeFeed(dag: Dag, run: Option<Run>, batches: seq<FeedBatch>) returns (verdict: FeedDay)
    ensures verdict.complete <==> FeedComplete(run, batches)
    ensures run.Some? ==> (verdict.complete <==> verdict.failures == [])
    ensures forall b :: b in verdict.parked <==>
                        run.Some? && b in batches && b.status == Rejected && b.delivery == Parked
                          && SenderResolves(b.reason)
    ensures forall b :: OfBatch(b) in verdict.failures <==>
                        run.Some? && b in batches && b.status == Rejected && !AccountedFor(batches, b)
    ensures OfRun(dag) in verdict.failures <==> run == Some(Failed) && !AnyRefused(batches)
  {
    if run.None? {
      return FeedDay(false, [], []);
    }
    var registered := set i | 0 <= i < |batches|
      && batches[i].status == Registered :: (batches[i].entity, batches[i].interval);
    var parked, failures := [], [];
    for n := 0 to |batches|
      invariant forall b :: b in parked <==>
                            b in batches[..n] && b.status == Rejected && b.delivery == Parked
                              && SenderResolves(b.reason)
      invariant forall b ::
                  OfBatch(b) in failures <==> b in batches[..n] && b.status == Rejected && !AccountedFor(batches, b)
      invariant forall f :: f in failures ==> f.OfBatch?
    {
      var batch := batches[n];
      assert batches[..n + 1] == batches[..n] + [batch];
      assert SameRegistered(batches, batch) <==> (batch.entity, batch.interval) in registered;
      if batch.status == Rejected {
        if batch.delivery == Landed {
        } else if batch.delivery == Parked && SenderResolves(batch.reason) {
          parked := parked + [batch];
        } else if batch.delivery == NoDelivery && (batch.entity, batch.interval) in registered {
        } else {
          failures := failures + [OfBatch(batch)];
        }
      }
    }
    assert batches[..|batches|] == batches;
    assert failures == [] <==> forall b :: b in batches && b.status == Rejected ==> AccountedFor(batches, b) by {
      if failures != [] {
        assert failures[0] in failures && OfBatch(failures[0].batch) in failures;
      }
    }
    if run.value == Failed && !(exists i :: 0 <= i < |batches| && batches[i].status == Rejected) {
      failures := failures + [OfRun(dag)];
    }
    return FeedDay(failures == [], parked, failures);
  }

  /** A delivery that lands after all never makes a complete feed incomplete. */
  predicate Improved(before: seq<FeedBatch>, after: seq<FeedBatch>) {
    && |before| == |after|
    && forall i :: 0 <= i < |before| ==> after[i] == before[i] || after[i] == before[i].(delivery := Landed)
  }

  lemma {:induction false} ImprovementKeepsComplete(run: Option<Run>, before: seq<FeedBatch>, after: seq<FeedBatch>)
    requires FeedComplete(run, before) && Improved(before, after)
    ensures FeedComplete(run, after)
  {
    forall i | 0 <= i < |after| && after[i].status == Rejected ensures AccountedFor(after, after[i]) {
      assert AccountedFor(before, before[i]);
      if after[i].delivery == NoDelivery {
        var j :| 0 <= j < |before| && before[j].status == Registered && before[j].entity == before[i].entity
                 && before[j].interval == before[i].interval;
        assert after[j].status == Registered && after[j].entity == after[i].entity
               && after[j].interval == after[i].interval;
      }
    }
    if run.value == Failed {
      var i :| 0 <= i < |before| && before[i].status == Rejected;
      assert after[i].status == Rejected;
    }
  }

  // ---------------------------------------------------------------- cadences

  /** Day numbers count from the first day of year one, a Monday. */
  predicate Monday(day: int) {
    (day + 6) % 7 == 0
  }

  predicate Fifteenth(day: int)
    requires day >= 1
  {
    Calendar.DateOf(day).day == 15
  }

  /** The feeds of a day on which the weekly and the monthly cadence do or do not fall, in the order they are
      triggered. */
  function Cadence(weekly: bool, monthly: bool): (due: seq<Dag>)
    ensures forall dag ::
              dag in due <==>
              dag == Settlement || dag == Fx || (dag == Sanctions && weekly) || (dag == Macro && monthly)
    ensures forall i, j :: 0 <= i < j < |due| ==> due[i] != due[j]
  {
    if weekly && monthly then [Settlement, Fx, Sanctions, Macro]
    else if weekly then [Settlement, Fx, Sanctions]
    else if monthly then [Settlement, Fx, Macro]
    else [Settlement, Fx]
  }

  function FeedsDue(day: int): seq<Dag>
    requires day >= 1
  {
    Cadence(Monday(day), Fifteenth(day))
  }

  /** Settlement files and exchange rates are due every day, the sanctions list on Mondays and the macro series on the
      fifteenth, each once and in that order; nothing else ever is. Day one of the calendar is a Monday. */
  lemma {:induction false} FeedsFallOnTheirDays(day: int)
    requires day >= 1
    ensures FeedsDue(day)
         == [Settlement, Fx] + (if day % 7 == 1 then [Sanctions] else [])
            + (if Calendar.DateOf(day).day == 15 then [Macro] else [])
    ensures Settlement in FeedsDue(day) && Fx in FeedsDue(day) && Reference !in FeedsDue(day) && Core !in FeedsDue(day)
    ensures Sanctions in FeedsDue(day) <==> day % 7 == 1
    ensures Macro in FeedsDue(day) <==> Calendar.DateOf(day).day == 15
  {
    MondaysRecur(day);
    CadenceInOrder(Monday(day), Fifteenth(day));
  }

  lemma {:induction false} CadenceInOrder(weekly: bool, monthly: bool)
    ensures Cadence(weekly, monthly)
         == [Settlement, Fx] + (if weekly then [Sanctions] else []) + (if monthly then [Macro] else [])
  {
  }

  lemma {:induction false} MondaysRecur(day: int)
    ensures Monday(day) <==> day % 7 == 1
  {
  }
}
