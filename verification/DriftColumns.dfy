/** Drift column by column: when skipped days make no difference, what every run of a well-made timeline keeps, and
    replaying the log. */
module DriftColumns {
  import opened Rows
  import opened Drift
  import opened DriftRuns

  // ---------------------------------------------------------------- column by column

  function On(events: seq<DriftEvent>, key: Key): seq<DriftEvent> {
    Kept(events, (e: DriftEvent) => e.Target() == key)
  }

  function TypeOf(live: Schema, key: Key): Option<string> {
    if key in live then Some(live[key]) else None
  }

  function Touched(now: Option<string>, e: DriftEvent): Option<string> {
    if e.ColumnAdded? then Some(e.added.dataType) else if now.Some? then Some(e.to) else None
  }

  /** The documented type of a column after events that are all on it. */
  function After(now: Option<string>, events: seq<DriftEvent>): Option<string> {
    if events == [] then now else Touched(After(now, events[..|events| - 1]), events[|events| - 1])
  }

  /** What an event must meet for its reversal to undo it. */
  predicate Fits(e: DriftEvent, now: Option<string>) {
    if e.ColumnAdded? then now == None else now == Some(e.back)
  }

  /** Along events on one column, each meets what its reversal restores. */
  predicate Chains(now: Option<string>, events: seq<DriftEvent>) {
    events == [] ||
    (Chains(now, events[..|events| - 1]) && Fits(events[|events| - 1], After(now, events[..|events| - 1])))
  }

  lemma {:induction false} ChainsFront(now: Option<string>, events: seq<DriftEvent>, n: nat)
    requires n <= |events| && Chains(now, events)
    ensures Chains(now, events[..n])
    decreases |events|
  {
    if n < |events| {
      assert events[..|events| - 1][..n] == events[..n];
      ChainsFront(now, events[..|events| - 1], n);
    } else {
      assert events[..n] == events;
    }
  }

  lemma {:induction false} NextOn(front: seq<DriftEvent>, e: DriftEvent, key: Key)
    ensures On(front + [e], key) == if e.Target() == key then On(front, key) + [e] else On(front, key)
  {
    KeptAppend(front, e, (e: DriftEvent) => e.Target() == key);
  }

  lemma {:induction false} DeltaOnColumn(columns: seq<Column>, e: DriftEvent, key: Key)
    ensures TypeOf(SchemaOf(Delta(columns, e)), key)
         == if e.Target() == key then Touched(TypeOf(SchemaOf(columns), key), e) else TypeOf(SchemaOf(columns), key)
  {
    if e.ColumnAdded? {
      assert (columns + [e.added])[..|columns|] == columns;
    } else {
      RetypedSchema(columns, e.target, e.to);
    }
  }

  lemma {:induction false} NextDelta(
    timeline: seq<DriftEvent>, documented: seq<Column>, front: seq<DriftEvent>, e: DriftEvent)
    requires DistinctNames(timeline) && e in timeline
    ensures NamesOf(front + [e]) == NamesOf(front) + [e.name]
    ensures Deltas(timeline, documented, NamesOf(front + [e]))
         == Delta(Deltas(timeline, documented, NamesOf(front)), e)
  {
    assert (front + [e])[..|front|] == front;
    assert NamesOf(front + [e])[..|front|] == NamesOf(front);
    NamedOnce(timeline, e);
  }

  /** The documented schema, column by column: only the events on a column say what becomes of it. */
  lemma {:induction false} ColumnFollowsItsEvents(
    timeline: seq<DriftEvent>, documented: seq<Column>, events: seq<DriftEvent>, key: Key)
    requires DistinctNames(timeline) && forall e :: e in events ==> e in timeline
    ensures TypeOf(SchemaOf(Deltas(timeline, documented, NamesOf(events))), key)
         == After(TypeOf(SchemaOf(documented), key), On(events, key))
  {
    if events != [] {
      var front, e := events[..|events| - 1], events[|events| - 1];
      assert events == front + [e];
      ColumnFollowsItsEvents(timeline, documented, front, key);
      NextDelta(timeline, documented, front, e);
      DeltaOnColumn(Deltas(timeline, documented, NamesOf(front)), e, key);
      NextOn(front, e, key);
      if e.Target() == key {
        assert On(events, key)[..|On(front, key)|] == On(front, key);
      }
    }
  }

  ghost predicate AllChain(documented: seq<Column>, events: seq<DriftEvent>) {
    forall key :: Chains(TypeOf(SchemaOf(documented), key), On(events, key))
  }

  /** Reversals match along a log exactly when they do column by column. */
  lemma {:induction false} MatchesByColumn(
    timeline: seq<DriftEvent>, documented: seq<Column>, events: seq<DriftEvent>)
    requires DistinctNames(timeline) && forall e :: e in events ==> e in timeline
    ensures MatchesAlong(timeline, documented, NamesOf(events)) <==> AllChain(documented, events)
  {
    if events != [] {
      var front, e := events[..|events| - 1], events[|events| - 1];
      assert events == front + [e];
      MatchesByColumn(timeline, documented, front);
      NextMatchesByColumn(timeline, documented, front, e);
      NextChains(documented, front, e);
    }
  }

  lemma {:induction false} NextMatchesByColumn(
    timeline: seq<DriftEvent>, documented: seq<Column>, front: seq<DriftEvent>, e: DriftEvent)
    requires DistinctNames(timeline) && e in timeline && forall other :: other in front ==> other in timeline
    ensures MatchesAlong(timeline, documented, NamesOf(front + [e]))
            <==> MatchesAlong(timeline, documented, NamesOf(front))
                 && Fits(e, After(TypeOf(SchemaOf(documented), e.Target()), On(front, e.Target())))
  {
    NextDelta(timeline, documented, front, e);
    NamedOnce(timeline, e);
    assert NamesOf(front + [e])[..|front|] == NamesOf(front);
    ColumnFollowsItsEvents(timeline, documented, front, e.Target());
    MatchesExactly(e, SchemaOf(Deltas(timeline, documented, NamesOf(front))));
  }

  lemma {:induction false} NextChains(documented: seq<Column>, front: seq<DriftEvent>, e: DriftEvent)
    ensures AllChain(documented, front + [e])
            <==> AllChain(documented, front)
                 && Fits(e, After(TypeOf(SchemaOf(documented), e.Target()), On(front, e.Target())))
  {
    var key := e.Target();
    NextOn(front, e, key);
    assert On(front + [e], key)[..|On(front, key)|] == On(front, key);
    forall other: Key | other != key ensures On(front + [e], other) == On(front, other) {
      NextOn(front, e, other);
    }
    if AllChain(documented, front + [e]) {
      forall other: Key ensures Chains(TypeOf(SchemaOf(documented), other), On(front, other)) {
        assert Chains(TypeOf(SchemaOf(documented), other), On(front + [e], other));
      }
    }
    if AllChain(documented, front) && Fits(e, After(TypeOf(SchemaOf(documented), key), On(front, key))) {
      forall other: Key ensures Chains(TypeOf(SchemaOf(documented), other), On(front + [e], other)) {
        assert Chains(TypeOf(SchemaOf(documented), other), On(front, other));
      }
    }
  }

  // ---------------------------------------------------------------- when skipped days make no difference

  ghost predicate Ordered(events: seq<DriftEvent>) {
    forall i, j :: 0 <= i < j < |events| ==> events[i].offset <= events[j].offset
  }

  function DueBy(anchor: int, since: Option<int>): DriftEvent -> bool {
    (e: DriftEvent) => DueSince(e, anchor, since)
  }

  lemma {:induction false} OrderedDueIsAFront(events: seq<DriftEvent>, anchor: int, since: Option<int>)
    requires Ordered(events)
    ensures Kept(events, DueBy(anchor, since)) <= events
  {
    if events != [] {
      var front, last := events[..|events| - 1], events[|events| - 1];
      OrderedDueIsAFront(front, anchor, since);
      if DueSince(last, anchor, since) {
        KeptAll(events, DueBy(anchor, since));
      }
    }
  }

  lemma {:induction false} OrderedDueInTurn(events: seq<DriftEvent>, anchor: int, since: Option<int>, date: int)
    requires Ordered(events) && (since.Some? ==> since.value <= date)
    ensures Kept(events, DueBy(anchor, since)) + Kept(events, Newly(anchor, since, date))
         == Kept(events, DueBy(anchor, Some(date)))
  {
    if events != [] {
      var front, last := events[..|events| - 1], events[|events| - 1];
      OrderedDueInTurn(front, anchor, since, date);
      if DueSince(last, anchor, since) {
        KeptAll(events, DueBy(anchor, since));
        KeptAll(events, DueBy(anchor, Some(date)));
        KeptNone(events, Newly(anchor, since, date));
      } else {
        Regroup(Kept(front, DueBy(anchor, since)), Kept(front, Newly(anchor, since, date)),
                if Newly(anchor, since, date)(last) then [last] else []);
      }
    }
  }

  /** Events listed in the order of their dates come due in that order, whatever days are skipped. */
  lemma {:induction false} OrderedArrivals(events: seq<DriftEvent>, anchor: int, dates: seq<int>)
    requires Ordered(events) && Ascending(dates)
    ensures Arrivals(events, anchor, dates) == Kept(events, DueBy(anchor, LastOf(dates)))
    ensures Arrivals(events, anchor, dates) <= events
  {
    OrderedDueIsAFront(events, anchor, LastOf(dates));
    if dates == [] {
      NoneDueYet(events, anchor);
    } else {
      var front, date := dates[..|dates| - 1], dates[|dates| - 1];
      OrderedArrivals(events, anchor, front);
      OrderedDueInTurn(events, anchor, LastOf(front), date);
    }
  }

  lemma {:induction false} NoneDueYet(events: seq<DriftEvent>, anchor: int)
    ensures Kept(events, DueBy(anchor, None)) == []
  {
    if events != [] {
      NoneDueYet(events[..|events| - 1], anchor);
    }
  }

  /** Skipping days never changes the order the events come due in exactly when they are listed in the order of their
      dates. */
  lemma {:induction false} ListedOrderIsKept(events: seq<DriftEvent>, anchor: int)
    requires DistinctNames(events)
    ensures (forall dates :: Ascending(dates) ==> Arrivals(events, anchor, dates) <= events) <==> Ordered(events)
  {
    if Ordered(events) {
      forall dates | Ascending(dates) ensures Arrivals(events, anchor, dates) <= events {
        OrderedArrivals(events, anchor, dates);
      }
    } else {
      var i, j :| 0 <= i < j < |events| && events[i].offset > events[j].offset;
      var dates := [anchor + events[j].offset];
      OutOfTurn(events, anchor, i, j);
      assert Ascending(dates) && !(Arrivals(events, anchor, dates) <= events);
    }
  }

  /** Of two events listed against their dates, the later listed comes due without the other. */
  lemma {:induction false} OutOfTurn(events: seq<DriftEvent>, anchor: int, i: nat, j: nat)
    requires DistinctNames(events) && i < j < |events| && events[i].offset > events[j].offset
    ensures !(Arrivals(events, anchor, [anchor + events[j].offset]) <= events)
  {
    var dates := [anchor + events[j].offset];
    var arrived := Arrivals(events, anchor, dates);
    ArrivalsAreWhatIsDue(events, anchor, dates);
    assert events[j] in arrived;
    if arrived <= events {
      FrontHoldsEarlier(arrived, events, i, j);
    }
  }

  lemma {:induction false} FrontHoldsEarlier(front: seq<DriftEvent>, events: seq<DriftEvent>, i: nat, j: nat)
    requires DistinctNames(events) && front <= events && i < j < |events| && events[j] in front
    ensures events[i] in front
  {
    var p :| 0 <= p < |front| && front[p] == events[j];
    assert events[p].name == events[j].name;
    assert front[i] == events[i];
  }

  lemma {:induction false} ArrivalsOnAColumn(timeline: seq<DriftEvent>, anchor: int, dates: seq<int>, key: Key)
    ensures On(Arrivals(timeline, anchor, dates), key) == Arrivals(On(timeline, key), anchor, dates)
  {
    if dates != [] {
      var front, date := dates[..|dates| - 1], dates[|dates| - 1];
      var keep := Newly(anchor, LastOf(front), date);
      ArrivalsOnAColumn(timeline, anchor, front, key);
      KeptConcat(Arrivals(timeline, anchor, front), Kept(timeline, keep), (e: DriftEvent) => e.Target() == key);
      KeptTwice(timeline, keep, (e: DriftEvent) => e.Target() == key);
    }
  }

  /** Each column's events are listed in the order of their dates. */
  ghost predicate ColumnsInOrder(timeline: seq<DriftEvent>) {
    forall key :: Ordered(On(timeline, key))
  }

  /** A timeline anyone can check against the dictionary: its names are distinct, each column's events are listed in the
      order of their dates, and every reversal matches when all of them fire as listed. */
  ghost predicate WellMade(timeline: seq<DriftEvent>, documented: seq<Column>) {
    DistinctNames(timeline) && ColumnsInOrder(timeline) && MatchesAlong(timeline, documented, NamesOf(timeline))
  }

  lemma {:induction false} ArrivalsMatch(
    timeline: seq<DriftEvent>, anchor: int, documented: seq<Column>, dates: seq<int>)
    requires WellMade(timeline, documented) && Ascending(dates)
    ensures MatchesAlong(timeline, documented, NamesOf(Arrivals(timeline, anchor, dates)))
  {
    var arrived := Arrivals(timeline, anchor, dates);
    ArrivalsAreWhatIsDue(timeline, anchor, dates);
    MatchesByColumn(timeline, documented, timeline);
    MatchesByColumn(timeline, documented, arrived);
    forall key ensures Chains(TypeOf(SchemaOf(documented), key), On(arrived, key)) {
      ArrivalsOnAColumn(timeline, anchor, dates, key);
      OrderedArrivals(On(timeline, key), anchor, dates);
      assert Chains(TypeOf(SchemaOf(documented), key), On(timeline, key));
      assert On(arrived, key) == On(timeline, key)[..|On(arrived, key)|];
      ChainsFront(TypeOf(SchemaOf(documented), key), On(timeline, key), |On(arrived, key)|);
    }
  }

  /** However days are ticked or skipped, over any well-made timeline, several events on one column included: no tick
      fails, the fired events are exactly those due by the last ticked date, each once, in the order they came due, the
      live schema is the dictionary plus the log's deltas, and reverting newest first gives back the dictionary's
      schema. */
  lemma {:induction false} EveryRunFiresWhatIsDue(
    timeline: seq<DriftEvent>, anchor: int, documented: seq<Column>, dates: seq<int>)
    requires WellMade(timeline, documented) && Ascending(dates)
    ensures NoTickFails(timeline, anchor, Seeded(documented), dates)
    ensures var s, arrived := Run(timeline, anchor, Seeded(documented), dates), Arrivals(timeline, anchor, dates);
            && s.log == NamesOf(arrived) && DistinctNames(arrived)
            && (forall e :: e in arrived <==> e in timeline && DueSince(e, anchor, LastOf(dates)))
            && s.live == SchemaOf(Deltas(timeline, documented, s.log))
            && Reverted(timeline, s.live, s.log) == Ok(SchemaOf(documented))
  {
    var start, arrived := Seeded(documented), Arrivals(timeline, anchor, dates);
    ArrivalsMatch(timeline, anchor, documented, dates);
    ArrivalsAreWhatIsDue(timeline, anchor, dates);
    ArrivalsAreDistinct(timeline, anchor, dates);
    assert start.log + NamesOf(arrived) == NamesOf(arrived);
    FiringFollowsTheLog(timeline, documented, start, arrived);
    TicksFireArrivals(timeline, anchor, start, dates);
    RevertingGivesBackTheDictionary(timeline, documented, NamesOf(arrived));
  }

  // ---------------------------------------------------------------- when skipped days do make a difference

  /** The column never has a type again that it had before. */
  ghost predicate NeverReturns(now: Option<string>, events: seq<DriftEvent>) {
    forall i, j :: 0 <= i < j <= |events| ==> After(now, events[..i]) != After(now, events[..j])
  }

  /** The last event fits after only one front of the others: all of them. */
  lemma {:induction false} SameBefore(now: Option<string>, events: seq<DriftEvent>, kept: seq<DriftEvent>)
    requires events != [] && NeverReturns(now, events) && kept <= events[..|events| - 1]
    requires Fits(events[|events| - 1], After(now, events[..|events| - 1]))
    requires Fits(events[|events| - 1], After(now, kept))
    ensures kept + [events[|events| - 1]] == events
  {
    assert kept == events[..|kept|];
    assert After(now, events[..|kept|]) == After(now, events[..|events| - 1]);
  }

  /** Of events that chain and never return to a type, only a front chains. */
  lemma {:induction false} OnlyFrontsChain(now: Option<string>, events: seq<DriftEvent>, keep: DriftEvent -> bool)
    requires Chains(now, events) && NeverReturns(now, events) && Chains(now, Kept(events, keep))
    ensures Kept(events, keep) <= events
  {
    if events != [] {
      var n := |events| - 1;
      var front, last := events[..n], events[n];
      forall i, j | 0 <= i < j <= n ensures After(now, front[..i]) != After(now, front[..j]) {
        assert front[..i] == events[..i] && front[..j] == events[..j];
      }
      var kept := Kept(front, keep);
      if keep(last) {
        assert Kept(events, keep)[..|kept|] == kept;
        OnlyFrontsChain(now, front, keep);
        SameBefore(now, events, kept);
      } else {
        assert Kept(events, keep) == kept;
        OnlyFrontsChain(now, front, keep);
      }
    }
  }

  /** Where no column returns to a type, every reversal matches on every run exactly when each column's events are
      listed in the order of their dates. */
  lemma {:induction false} ReversalsMatchExactlyInOrder(
    timeline: seq<DriftEvent>, anchor: int, documented: seq<Column>)
    requires DistinctNames(timeline) && MatchesAlong(timeline, documented, NamesOf(timeline))
    requires forall key :: NeverReturns(TypeOf(SchemaOf(documented), key), On(timeline, key))
    ensures (forall dates :: Ascending(dates) ==> MatchesOn(timeline, anchor, documented, dates))
            <==> ColumnsInOrder(timeline)
  {
    if ColumnsInOrder(timeline) {
      forall dates | Ascending(dates) ensures MatchesOn(timeline, anchor, documented, dates) {
        EveryRunFiresWhatIsDue(timeline, anchor, documented, dates);
        ArrivalsMatch(timeline, anchor, documented, dates);
      }
    } else {
      var key :| !Ordered(On(timeline, key));
      var dates := MismatchedDay(timeline, anchor, documented, key);
      assert Ascending(dates) && !MatchesOn(timeline, anchor, documented, dates);
    }
  }

  ghost predicate MatchesOn(timeline: seq<DriftEvent>, anchor: int, documented: seq<Column>, dates: seq<int>) {
    && NoTickFails(timeline, anchor, Seeded(documented), dates)
    && MatchesAlong(timeline, documented, Run(timeline, anchor, Seeded(documented), dates).log)
  }

  lemma {:induction false} MismatchedDay(timeline: seq<DriftEvent>, anchor: int, documented: seq<Column>, key: Key)
    returns (dates: seq<int>)
    requires DistinctNames(timeline) && MatchesAlong(timeline, documented, NamesOf(timeline))
    requires NeverReturns(TypeOf(SchemaOf(documented), key), On(timeline, key)) && !Ordered(On(timeline, key))
    ensures Ascending(dates) && !MatchesOn(timeline, anchor, documented, dates)
  {
    var own, now := On(timeline, key), TypeOf(SchemaOf(documented), key);
    var i, j :| 0 <= i < j < |own| && own[i].offset > own[j].offset;
    dates := [anchor + own[j].offset];
    KeptNamesStayDistinct(timeline, (e: DriftEvent) => e.Target() == key);
    OutOfTurn(own, anchor, i, j);
    if MatchesOn(timeline, anchor, documented, dates) {
      var arrived := Arrivals(timeline, anchor, dates);
      TicksFireArrivals(timeline, anchor, Seeded(documented), dates);
      ArrivalsAreWhatIsDue(timeline, anchor, dates);
      MatchesByColumn(timeline, documented, arrived);
      MatchesByColumn(timeline, documented, timeline);
      ArrivalsOnAColumn(timeline, anchor, dates, key);
      assert Chains(now, own) && Chains(now, On(arrived, key));
      FirstArrivals(own, anchor, dates[0]);
      OnlyFrontsChain(now, own, Newly(anchor, None, dates[0]));
    }
  }

  // ---------------------------------------------------------------- replaying the log

  /** Re-applying the events the log names, in its order. */
  function Replayed(timeline: seq<DriftEvent>, live: Schema, log: seq<string>): Result<Schema> {
    if log == [] then Ok(live)
    else
      var before, event := Replayed(timeline, live, log[..|log| - 1]), EventByName(timeline, log[|log| - 1]);
      if before.Refused? || event.None? then before else Exec(before.value, event.value.Apply())
  }

  /** The type the log last widened a column to. */
  function Widened(timeline: seq<DriftEvent>, log: seq<string>, key: Key): Option<string> {
    if log == [] then None
    else
      var before, event := Widened(timeline, log[..|log| - 1], key), EventByName(timeline, log[|log| - 1]);
      if event.Some? && event.value.TypeWidened? && event.value.target == key then Some(event.value.to) else before
  }

  /** What a matching log's last event does to the documented schema. */
  lemma {:induction false} LastMatches(timeline: seq<DriftEvent>, documented: seq<Column>, log: seq<string>)
    requires log != [] && MatchesAlong(timeline, documented, log)
    ensures var event := EventByName(timeline, log[|log| - 1]);
            var before := SchemaOf(Deltas(timeline, documented, log[..|log| - 1]));
            && event.Some? && Exec(before, event.value.Apply()) == Ok(SchemaOf(Deltas(timeline, documented, log)))
            && if event.value.ColumnAdded? then event.value.Target() !in before else event.value.Target() in before
  {
    var front, event := log[..|log| - 1], EventByName(timeline, log[|log| - 1]).value;
    DeltaIsApplied(Deltas(timeline, documented, front), event);
    MatchesExactly(event, SchemaOf(Deltas(timeline, documented, front)));
  }

  /** A column has the type it was last widened to. */
  lemma {:induction false} WidenedIsLive(
    timeline: seq<DriftEvent>, documented: seq<Column>, log: seq<string>, key: Key)
    requires MatchesAlong(timeline, documented, log) && Widened(timeline, log, key).Some?
    ensures TypeOf(SchemaOf(Deltas(timeline, documented, log)), key) == Widened(timeline, log, key)
  {
    var front, event := log[..|log| - 1], EventByName(timeline, log[|log| - 1]).value;
    LastMatches(timeline, documented, log);
    if Widened(timeline, front, key).Some? {
      WidenedIsLive(timeline, documented, front, key);
    }
  }

  /** Every event's column is there. */
  lemma {:induction false} ColumnIsLive(
    timeline: seq<DriftEvent>, documented: seq<Column>, log: seq<string>, i: nat)
    requires i < |log| && MatchesAlong(timeline, documented, log)
    ensures EventByName(timeline, log[i]).Some?
    ensures EventByName(timeline, log[i]).value.Target() in SchemaOf(Deltas(timeline, documented, log))
  {
    LastMatches(timeline, documented, log);
    if i < |log| - 1 {
      ColumnIsLive(timeline, documented, log[..|log| - 1], i);
    }
  }

  lemma {:induction false} ReplayedFront(timeline: seq<DriftEvent>, log: seq<string>, live: Schema, n: nat)
    requires n <= |log|
    requires forall i :: 0 <= i < |log| ==>
               EventByName(timeline, log[i]).Some? && EventByName(timeline, log[i]).value.Target() in live
    ensures var r := Replayed(timeline, live, log[..n]);
            && r.Ok? && r.value.Keys == live.Keys
            && forall key :: key in live ==> r.value[key] == Widened(timeline, log[..n], key).GetOr(live[key])
  {
    if n > 0 {
      ReplayedFront(timeline, log, live, n - 1);
      assert log[..n][..n - 1] == log[..n - 1] && log[..n][n - 1] == log[n - 1];
    }
  }

  /** Re-applying the whole log in order, as applying the schema does, leaves the live schema as it was, though a column
      widened twice is narrowed on the way. */
  lemma {:induction false} ReplayingChangesNothing(
    timeline: seq<DriftEvent>, documented: seq<Column>, log: seq<string>)
    requires MatchesAlong(timeline, documented, log)
    ensures var live := SchemaOf(Deltas(timeline, documented, log)); Replayed(timeline, live, log) == Ok(live)
  {
    var live := SchemaOf(Deltas(timeline, documented, log));
    forall i | 0 <= i < |log|
      ensures EventByName(timeline, log[i]).Some? && EventByName(timeline, log[i]).value.Target() in live
    {
      ColumnIsLive(timeline, documented, log, i);
    }
    ReplayedFront(timeline, log, live, |log|);
    assert log[..|log|] == log;
    var r := Replayed(timeline, live, log).value;
    forall key | key in live ensures r[key] == live[key] {
      if Widened(timeline, log, key).Some? {
        WidenedIsLive(timeline, documented, log, key);
      }
    }
    assert r == live;
  }

  /** Re-applying one fired event changes nothing exactly when it added its column or gave it the type it was last
      widened to. */
  lemma {:induction false} ReapplyingChangesNothing(
    timeline: seq<DriftEvent>, documented: seq<Column>, log: seq<string>, i: nat, e: DriftEvent)
    requires MatchesAlong(timeline, documented, log) && i < |log| && EventByName(timeline, log[i]) == Some(e)
    ensures var live := SchemaOf(Deltas(timeline, documented, log));
            Exec(live, e.Apply()) == Ok(live) <==> e.ColumnAdded? || Widened(timeline, log, e.target) == Some(e.to)
  {
    var live := SchemaOf(Deltas(timeline, documented, log));
    ColumnIsLive(timeline, documented, log, i);
    if e.TypeWidened? {
      WidenedAt(timeline, log, i, e);
      WidenedIsLive(timeline, documented, log, e.target);
      RetypingChangesNothing(live, e.target, e.to);
    }
  }

  lemma {:induction false} RetypingChangesNothing(live: Schema, key: Key, dataType: string)
    requires key in live
    ensures live[key := dataType] == live <==> live[key] == dataType
  {
    if live[key] == dataType {
      assert live[key := dataType] == live;
    } else {
      assert live[key := dataType][key] != live[key];
    }
  }

  lemma {:induction false} WidenedAt(timeline: seq<DriftEvent>, log: seq<string>, i: nat, e: DriftEvent)
    requires i < |log| && EventByName(timeline, log[i]) == Some(e) && e.TypeWidened?
    ensures Widened(timeline, log, e.target).Some?
  {
    var n := |log| - 1;
    if i < n {
      WidenedAt(timeline, log[..n], i, e);
    }
  }

  // ---------------------------------------------------------------- timelines

  const RISK_SCORE := Key("core", "merchants", "merchant_risk_score")
  const REMITTANCE := Key("core", "payments", "remittance_reference")
  const EVENTS := [
    ColumnAdded("merchants_risk_score_added", 12, Column(RISK_SCORE, "numeric(18,8)", "non-personal")),
    TypeWidened("payments_remittance_widened", 37, REMITTANCE, "character varying(280)", "character varying(140)")]

  lemma {:induction false} OrderedColumns(timeline: seq<DriftEvent>)
    requires Ordered(timeline)
    ensures ColumnsInOrder(timeline)
  {
    forall key ensures Ordered(On(timeline, key)) {
      KeptStaysOrdered(timeline, (e: DriftEvent) => e.Target() == key);
    }
  }

  lemma {:induction false} KeptStaysOrdered(events: seq<DriftEvent>, keep: DriftEvent -> bool)
    requires Ordered(events)
    ensures Ordered(Kept(events, keep))
  {
    if events != [] {
      var front, last := events[..|events| - 1], events[|events| - 1];
      KeptStaysOrdered(front, keep);
      KeptHolds(front, keep);
      forall i | 0 <= i < |Kept(front, keep)| ensures Kept(front, keep)[i].offset <= last.offset {
        assert Kept(front, keep)[i] in front;
      }
    }
  }

  /** The two scripted events are well made against any dictionary that documents the reference at 140 characters and
      has no risk score, and against no other. */
  lemma {:induction false} ScriptedEventsAreWellMade(documented: seq<Column>)
    ensures WellMade(EVENTS, documented) <==>
              && RISK_SCORE !in SchemaOf(documented)
              && REMITTANCE in SchemaOf(documented) && SchemaOf(documented)[REMITTANCE] == "character varying(140)"
  {
    assert EVENTS[0].Target().table != EVENTS[1].Target().table by {
      assert "merchants"[0] == 'm' && "payments"[0] == 'p';
    }
    assert EVENTS[0].name != EVENTS[1].name by {
      assert EVENTS[0].name[0] == 'm' && EVENTS[1].name[0] == 'p';
    }
    OrderedColumns(EVENTS);
    assert EVENTS == [] + [EVENTS[0]] + [EVENTS[1]];
    NextMatchesByColumn(EVENTS, documented, [EVENTS[0]], EVENTS[1]);
    NextMatchesByColumn(EVENTS, documented, [], EVENTS[0]);
    NextOn([], EVENTS[0], REMITTANCE);
  }

  const NOTE := Key("core", "payments", "note")

  /** A widening is listed before the event that adds its column, and is due after it. */
  ghost predicate AgainstDates(timeline: seq<DriftEvent>, documented: seq<Column>) {
    && |timeline| == 2 && timeline[0].TypeWidened? && Adds(timeline[1], timeline[0].target)
    && timeline[0].target !in SchemaOf(documented)
    && timeline[1].offset < timeline[0].offset && timeline[0].name != timeline[1].name
  }

  lemma {:induction false} KeptOfTwo(events: seq<DriftEvent>, keep: DriftEvent -> bool)
    requires |events| == 2
    ensures keep(events[0]) && keep(events[1]) ==> Kept(events, keep) == events
    ensures keep(events[0]) && !keep(events[1]) ==> Kept(events, keep) == [events[0]]
    ensures !keep(events[0]) && keep(events[1]) ==> Kept(events, keep) == [events[1]]
  {
    KeptOne(events[0], keep);
    KeptAppend([events[0]], events[1], keep);
    assert events == [events[0]] + [events[1]];
  }

  lemma {:induction false} ArrivalsDayByDay(
    timeline: seq<DriftEvent>, anchor: int, documented: seq<Column>, dates: seq<int>)
    requires AgainstDates(timeline, documented)
    requires |dates| == 2 && dates[0] == anchor + timeline[1].offset && dates[1] == anchor + timeline[0].offset
    ensures Arrivals(timeline, anchor, dates) == [timeline[1]] + [timeline[0]]
  {
    assert dates[..1][..0] == [];
    KeptOfTwo(timeline, Newly(anchor, None, dates[0]));
    KeptOfTwo(timeline, Newly(anchor, Some(dates[0]), dates[1]));
    assert Arrivals(timeline, anchor, dates[..1]) == [timeline[1]];
  }

  lemma {:induction false} AddedThenWidened(live: Schema, added: DriftEvent, widened: DriftEvent)
    requires widened.TypeWidened? && Adds(added, widened.target)
    ensures ApplyAll(live, [added] + [widened]).Ok?
  {
    assert [added][..0] == [];
    OneMore(live, [added], widened);
  }

  /** Ticked day by day both fire. */
  lemma {:induction false} DayByDayFires(
    timeline: seq<DriftEvent>, anchor: int, documented: seq<Column>, dates: seq<int>)
    requires AgainstDates(timeline, documented)
    requires |dates| == 2 && dates[0] == anchor + timeline[1].offset && dates[1] == anchor + timeline[0].offset
    ensures NoTickFails(timeline, anchor, Seeded(documented), dates)
    ensures Run(timeline, anchor, Seeded(documented), dates).log == NamesOf([timeline[1]] + [timeline[0]])
  {
    TicksFireArrivals(timeline, anchor, Seeded(documented), dates);
    ArrivalsDayByDay(timeline, anchor, documented, dates);
    AddedThenWidened(SchemaOf(documented), timeline[1], timeline[0]);
  }

  /** When the first day is skipped, the tick that finds both due fails and fires neither. */
  lemma {:induction false} SkippedDayFails(
    timeline: seq<DriftEvent>, anchor: int, documented: seq<Column>, date: int)
    requires AgainstDates(timeline, documented) && date == anchor + timeline[0].offset
    ensures !NoTickFails(timeline, anchor, Seeded(documented), [date])
    ensures Run(timeline, anchor, Seeded(documented), [date]) == Seeded(documented)
  {
    assert !PreparedAt(timeline, SchemaOf(documented), 0);
    UnpreparedFails(timeline, anchor, SchemaOf(documented), 0, date);
    FirstTick(timeline, anchor, Seeded(documented), date);
  }

  /** One such timeline, over an empty dictionary. */
  lemma {:induction false} NoteIsAgainstDates()
    ensures AgainstDates([TypeWidened("note_widened", 37, NOTE, "text", "character varying(140)"),
                          ColumnAdded("note_added", 12, Column(NOTE, "character varying(140)", "non-personal"))], [])
  {
    assert "note_widened"[5] == 'w' && "note_added"[5] == 'a';
  }
}
