/** Runs of drift ticks: whatever days are ticked or skipped, what fires, what cannot fail, and what can be undone. */
module DriftRuns {
  import opened Rows
  import opened Drift

  function Run(timeline: seq<DriftEvent>, anchor: int, s: State, dates: seq<int>): State {
    if dates == [] then s
    else
      var before := Run(timeline, anchor, s, dates[..|dates| - 1]);
      var after := Ticked(timeline, anchor, before, dates[|dates| - 1]);
      if after.Ok? then after.value else before
  }

  ghost predicate Ascending(dates: seq<int>) {
    forall i, j :: 0 <= i < j < |dates| ==> dates[i] <= dates[j]
  }

  function LastOf(dates: seq<int>): Option<int> {
    if dates == [] then None else Some(dates[|dates| - 1])
  }

  /** The source as the seed leaves it: the dictionary's schema, and nothing fired. */
  function Seeded(documented: seq<Column>): State {
    State(SchemaOf(documented), [])
  }

  ghost predicate NoTickFails(timeline: seq<DriftEvent>, anchor: int, s: State, dates: seq<int>) {
    dates == [] ||
    var front := dates[..|dates| - 1];
    NoTickFails(timeline, anchor, s, front)
    && Ticked(timeline, anchor, Run(timeline, anchor, s, front), dates[|dates| - 1]).Ok?
  }

  // ---------------------------------------------------------------- the order events come due in

  predicate DueSince(e: DriftEvent, anchor: int, since: Option<int>) {
    since.Some? && Due(e, anchor, since.value)
  }

  /** Those that come due by a date and had not by the day ticked before it. */
  function Newly(anchor: int, since: Option<int>, date: int): DriftEvent -> bool {
    (e: DriftEvent) => Due(e, anchor, date) && !DueSince(e, anchor, since)
  }

  /** On each day ticked, the events that have come due since the last, as the timeline lists them. What has fired or
      failed plays no part in it. */
  function Arrivals(timeline: seq<DriftEvent>, anchor: int, dates: seq<int>): seq<DriftEvent> {
    if dates == [] then []
    else
      var front, date := dates[..|dates| - 1], dates[|dates| - 1];
      Arrivals(timeline, anchor, front) + Kept(timeline, Newly(anchor, LastOf(front), date))
  }

  lemma {:induction false} ArrivalsAreWhatIsDue(timeline: seq<DriftEvent>, anchor: int, dates: seq<int>)
    requires Ascending(dates)
    ensures forall e :: e in Arrivals(timeline, anchor, dates) <==> e in timeline && DueSince(e, anchor, LastOf(dates))
  {
    if dates != [] {
      var front, date := dates[..|dates| - 1], dates[|dates| - 1];
      ArrivalsAreWhatIsDue(timeline, anchor, front);
      KeptHolds(timeline, Newly(anchor, LastOf(front), date));
    }
  }

  lemma {:induction false} KeptNamesStayDistinct(events: seq<DriftEvent>, keep: DriftEvent -> bool)
    requires DistinctNames(events)
    ensures DistinctNames(Kept(events, keep))
  {
    if events != [] {
      var front, last := events[..|events| - 1], events[|events| - 1];
      KeptNamesStayDistinct(front, keep);
      KeptHolds(front, keep);
      forall e | e in Kept(front, keep) ensures e.name != last.name {
        var i :| 0 <= i < |front| && front[i] == e;
        assert events[i] == e;
      }
    }
  }

  lemma {:induction false} ArrivalsAreDistinct(timeline: seq<DriftEvent>, anchor: int, dates: seq<int>)
    requires DistinctNames(timeline) && Ascending(dates)
    ensures DistinctNames(Arrivals(timeline, anchor, dates))
  {
    if dates != [] {
      var front, date := dates[..|dates| - 1], dates[|dates| - 1];
      var before, due := Arrivals(timeline, anchor, front), Kept(timeline, Newly(anchor, LastOf(front), date));
      ArrivalsAreDistinct(timeline, anchor, front);
      ArrivalsAreWhatIsDue(timeline, anchor, front);
      KeptNamesStayDistinct(timeline, Newly(anchor, LastOf(front), date));
      KeptHolds(timeline, Newly(anchor, LastOf(front), date));
      forall i, j | 0 <= i < |before| && 0 <= j < |due| ensures before[i].name != due[j].name {
        assert before[i] in before && due[j] in due;
        NamedOnce(timeline, before[i]);
        NamedOnce(timeline, due[j]);
      }
    }
  }

  /** What a tick finds due is what has come due since the last. */
  lemma {:induction false} DueIsNew(
    timeline: seq<DriftEvent>, anchor: int, since: Option<int>, date: int, already: set<string>)
    requires forall e :: e in timeline ==> (e.name in already <==> DueSince(e, anchor, since))
    ensures DueEvents(timeline, anchor, date, already) == Kept(timeline, Newly(anchor, since, date))
  {
    if timeline != [] {
      var first, rest, keep := timeline[0], timeline[1..], Newly(anchor, since, date);
      assert timeline == [first] + rest && first in timeline;
      DueIsNew(rest, anchor, since, date, already);
      KeptConcat([first], rest, keep);
      KeptOne(first, keep);
    }
  }

  // ---------------------------------------------------------------- what fires

  lemma {:induction false} NamesOfBoth(one: seq<DriftEvent>, two: seq<DriftEvent>)
    ensures NamesOf(one + two) == NamesOf(one) + NamesOf(two)
  {
  }

  function Then(r: Result<Schema>, events: seq<DriftEvent>): Result<Schema> {
    if r.Refused? then r else ApplyAll(r.value, events)
  }

  lemma {:induction false} ApplyBoth(live: Schema, one: seq<DriftEvent>, two: seq<DriftEvent>)
    ensures ApplyAll(live, one + two) == Then(ApplyAll(live, one), two)
  {
    if two == [] {
      assert one + two == one;
    } else {
      var front, last := two[..|two| - 1], two[|two| - 1];
      assert (one + two)[..|one + two| - 1] == one + front;
      ApplyBoth(live, one, front);
    }
  }

  lemma {:induction false} NamesMark(timeline: seq<DriftEvent>, events: seq<DriftEvent>, e: DriftEvent)
    requires DistinctNames(timeline) && e in timeline && forall other :: other in events ==> other in timeline
    ensures e.name in NamesOf(events) <==> e in events
  {
    var names := NamesOf(events);
    if e in events {
      var i :| 0 <= i < |events| && events[i] == e;
      assert names[i] == e.name;
    }
    if e.name in names {
      var i :| 0 <= i < |names| && names[i] == e.name;
      assert events[i] in events;
      NamedOnce(timeline, events[i]);
      NamedOnce(timeline, e);
    }
  }

  /** Ticks fail exactly when the events, as they come due, cannot be applied one after another; while none fails, the
      log is what has come due, in that order. */
  lemma {:induction false} TicksFireArrivals(timeline: seq<DriftEvent>, anchor: int, s: State, dates: seq<int>)
    requires DistinctNames(timeline) && Ascending(dates) && s.log == []
    ensures NoTickFails(timeline, anchor, s, dates) <==> ApplyAll(s.live, Arrivals(timeline, anchor, dates)).Ok?
    ensures NoTickFails(timeline, anchor, s, dates) ==>
              && Run(timeline, anchor, s, dates).log == NamesOf(Arrivals(timeline, anchor, dates))
              && ApplyAll(s.live, Arrivals(timeline, anchor, dates)) == Ok(Run(timeline, anchor, s, dates).live)
  {
    if dates != [] {
      var front, date := dates[..|dates| - 1], dates[|dates| - 1];
      var before, arrived := Run(timeline, anchor, s, front), Arrivals(timeline, anchor, front);
      TicksFireArrivals(timeline, anchor, s, front);
      var due := Kept(timeline, Newly(anchor, LastOf(front), date));
      ApplyBoth(s.live, arrived, due);
      NamesOfBoth(arrived, due);
      if NoTickFails(timeline, anchor, s, front) {
        ArrivalsAreWhatIsDue(timeline, anchor, front);
        forall e | e in timeline ensures e.name in Fired(before) <==> DueSince(e, anchor, LastOf(front)) {
          NamesMark(timeline, arrived, e);
        }
        DueIsNew(timeline, anchor, LastOf(front), date, Fired(before));
      }
    }
  }

  // ---------------------------------------------------------------- when no tick can fail

  predicate Adds(e: DriftEvent, key: Key) {
    e.ColumnAdded? && e.added.key == key
  }

  /** Every widened column is there at the start, or added by an event that is listed before the widening and comes due
      no later. */
  ghost predicate Prepared(timeline: seq<DriftEvent>, live: Schema) {
    forall j :: 0 <= j < |timeline| && timeline[j].TypeWidened? ==> PreparedAt(timeline, live, j)
  }

  ghost predicate PreparedAt(timeline: seq<DriftEvent>, live: Schema, j: nat)
    requires j < |timeline| && timeline[j].TypeWidened?
  {
    timeline[j].target in live
    || exists i {:trigger Adds(timeline[i], timeline[j].target)} ::
         0 <= i < j && Adds(timeline[i], timeline[j].target) && timeline[i].offset <= timeline[j].offset
  }

  ghost predicate SomeAdds(events: seq<DriftEvent>, key: Key) {
    exists e :: e in events && Adds(e, key)
  }

  lemma {:induction false} NextAdds(front: seq<DriftEvent>, last: DriftEvent, key: Key)
    ensures SomeAdds(front + [last], key) <==> SomeAdds(front, key) || Adds(last, key)
  {
    if Adds(last, key) {
      assert last in front + [last];
    }
    if SomeAdds(front, key) {
      var e :| e in front && Adds(e, key);
      assert e in front + [last];
    }
  }

  /** Applying events that succeed adds exactly the columns they add. */
  lemma {:induction false} ColumnsAfter(live: Schema, events: seq<DriftEvent>, key: Key)
    requires ApplyAll(live, events).Ok?
    ensures key in ApplyAll(live, events).value <==> key in live || SomeAdds(events, key)
  {
    if events != [] {
      var front, last := events[..|events| - 1], events[|events| - 1];
      ColumnsAfter(live, front, key);
      NextAdds(front, last, key);
      assert events == front + [last];
    }
  }

  /** What has arrived by the dates, and what the first `n` events listed bring on the next. */
  function Upto(timeline: seq<DriftEvent>, anchor: int, dates: seq<int>, date: int, n: nat): (events: seq<DriftEvent>)
    requires n <= |timeline|
  {
    Arrivals(timeline, anchor, dates) + Kept(timeline[..n], Newly(anchor, LastOf(dates), date))
  }

  lemma {:induction false} NextUpto(timeline: seq<DriftEvent>, anchor: int, dates: seq<int>, date: int, n: nat)
    requires n < |timeline|
    ensures Upto(timeline, anchor, dates, date, n + 1)
         == if Newly(anchor, LastOf(dates), date)(timeline[n])
            then Upto(timeline, anchor, dates, date, n) + [timeline[n]]
            else Upto(timeline, anchor, dates, date, n)
  {
    assert timeline[..n + 1] == timeline[..n] + [timeline[n]];
    KeptAppend(timeline[..n], timeline[n], Newly(anchor, LastOf(dates), date));
  }

  /** Of a prepared timeline, what has arrived and any front of what comes due next can be applied. */
  lemma {:induction false} PreparedApplies(
    timeline: seq<DriftEvent>, anchor: int, live: Schema, dates: seq<int>, date: int, n: nat)
    requires Prepared(timeline, live) && Ascending(dates) && n <= |timeline|
    requires ApplyAll(live, Arrivals(timeline, anchor, dates)).Ok?
    ensures ApplyAll(live, Upto(timeline, anchor, dates, date, n)).Ok?
  {
    if n == 0 {
      assert timeline[..0] == [];
      assert Upto(timeline, anchor, dates, date, 0) == Arrivals(timeline, anchor, dates);
    } else {
      PreparedApplies(timeline, anchor, live, dates, date, n - 1);
      if Newly(anchor, LastOf(dates), date)(timeline[n - 1]) {
        PreparedFindsItsColumn(timeline, anchor, live, dates, date, n - 1);
      }
      NextApplies(timeline, anchor, live, dates, date, n - 1);
    }
  }

  lemma {:induction false} NextApplies(
    timeline: seq<DriftEvent>, anchor: int, live: Schema, dates: seq<int>, date: int, n: nat)
    requires n < |timeline| && ApplyAll(live, Upto(timeline, anchor, dates, date, n)).Ok?
    requires Newly(anchor, LastOf(dates), date)(timeline[n]) && timeline[n].TypeWidened? ==>
               timeline[n].target in ApplyAll(live, Upto(timeline, anchor, dates, date, n)).value
    ensures ApplyAll(live, Upto(timeline, anchor, dates, date, n + 1)).Ok?
  {
    NextUpto(timeline, anchor, dates, date, n);
    OneMore(live, Upto(timeline, anchor, dates, date, n), timeline[n]);
  }

  /** An event that comes due finds its column there. */
  lemma {:induction false} PreparedFindsItsColumn(
    timeline: seq<DriftEvent>, anchor: int, live: Schema, dates: seq<int>, date: int, n: nat)
    requires Prepared(timeline, live) && Ascending(dates) && n < |timeline| && Due(timeline[n], anchor, date)
    requires ApplyAll(live, Upto(timeline, anchor, dates, date, n)).Ok?
    ensures timeline[n].TypeWidened? ==>
              timeline[n].target in ApplyAll(live, Upto(timeline, anchor, dates, date, n)).value
  {
    var e, before := timeline[n], Upto(timeline, anchor, dates, date, n);
    if e.TypeWidened? {
      ColumnsAfter(live, before, e.target);
      assert PreparedAt(timeline, live, n);
      if e.target !in live {
        var i :| 0 <= i < n && Adds(timeline[i], e.target) && timeline[i].offset <= e.offset;
        ArrivalsAreWhatIsDue(timeline, anchor, dates);
        KeptHolds(timeline[..n], Newly(anchor, LastOf(dates), date));
        assert timeline[i] in timeline && timeline[..n][i] in timeline[..n];
        assert timeline[i] in before;
      }
    }
  }

  lemma {:induction false} OneMore(live: Schema, before: seq<DriftEvent>, e: DriftEvent)
    ensures ApplyAll(live, before).Ok? ==>
              ApplyAll(live, before + [e]) == Exec(ApplyAll(live, before).value, e.Apply())
    ensures ApplyAll(live, before).Refused? ==> ApplyAll(live, before + [e]).Refused?
  {
    assert (before + [e])[..|before|] == before;
  }

  lemma {:induction false} PreparedNeverFails(
    timeline: seq<DriftEvent>, anchor: int, live: Schema, dates: seq<int>)
    requires Prepared(timeline, live) && Ascending(dates)
    ensures ApplyAll(live, Arrivals(timeline, anchor, dates)).Ok?
  {
    if dates != [] {
      var front, date := dates[..|dates| - 1], dates[|dates| - 1];
      PreparedNeverFails(timeline, anchor, live, front);
      PreparedApplies(timeline, anchor, live, front, date, |timeline|);
      assert timeline[..|timeline|] == timeline;
    }
  }

  /** An event that is not prepared fails with everything due by its day. */
  lemma {:induction false} UnpreparedFails(timeline: seq<DriftEvent>, anchor: int, live: Schema, j: nat, date: int)
    requires j < |timeline| && timeline[j].TypeWidened? && !PreparedAt(timeline, live, j)
    requires date == anchor + timeline[j].offset
    ensures ApplyAll(live, Kept(timeline, Newly(anchor, None, date))).Refused?
  {
    if ApplyAll(live, Kept(timeline[..j], Newly(anchor, None, date))).Ok? {
      NothingAddsIt(timeline, live, j, Newly(anchor, None, date));
    }
    MissingColumnFails(timeline, anchor, live, j, date);
  }

  lemma {:induction false} MissingColumnFails(
    timeline: seq<DriftEvent>, anchor: int, live: Schema, j: nat, date: int)
    requires j < |timeline| && timeline[j].TypeWidened? && Due(timeline[j], anchor, date)
    requires var before := ApplyAll(live, Kept(timeline[..j], Newly(anchor, None, date)));
             before.Ok? ==> timeline[j].target !in before.value
    ensures ApplyAll(live, Kept(timeline, Newly(anchor, None, date))).Refused?
  {
    var keep := Newly(anchor, None, date);
    KeptAround(timeline, j, keep);
    FailsInTheMiddle(live, Kept(timeline[..j], keep), timeline[j], Kept(timeline[j + 1..], keep));
  }

  /** A first tick fires what is due, or nothing. */
  lemma {:induction false} FirstTick(timeline: seq<DriftEvent>, anchor: int, s: State, date: int)
    requires s.log == [] && ApplyAll(s.live, Kept(timeline, Newly(anchor, None, date))).Refused?
    ensures !NoTickFails(timeline, anchor, s, [date]) && Run(timeline, anchor, s, [date]) == s
  {
    assert [date][..0] == [];
    DueIsNew(timeline, anchor, None, date, Fired(s));
  }

  lemma {:induction false} FailsInTheMiddle(
    live: Schema, front: seq<DriftEvent>, e: DriftEvent, rest: seq<DriftEvent>)
    requires ApplyAll(live, front).Ok? ==> Exec(ApplyAll(live, front).value, e.Apply()).Refused?
    ensures ApplyAll(live, (front + [e]) + rest).Refused?
  {
    ApplyBoth(live, front + [e], rest);
    OneMore(live, front, e);
  }

  lemma {:induction false} FirstArrivals(timeline: seq<DriftEvent>, anchor: int, date: int)
    ensures Arrivals(timeline, anchor, [date]) == Kept(timeline, Newly(anchor, None, date))
  {
    assert [date][..0] == [];
  }

  lemma {:induction false} KeptAround(events: seq<DriftEvent>, j: nat, keep: DriftEvent -> bool)
    requires j < |events| && keep(events[j])
    ensures Kept(events, keep) == (Kept(events[..j], keep) + [events[j]]) + Kept(events[j + 1..], keep)
  {
    assert events == (events[..j] + [events[j]]) + events[j + 1..];
    KeptConcat(events[..j] + [events[j]], events[j + 1..], keep);
    KeptAppend(events[..j], events[j], keep);
  }

  lemma {:induction false} NothingAddsIt(
    timeline: seq<DriftEvent>, live: Schema, j: nat, keep: DriftEvent -> bool)
    requires j < |timeline| && timeline[j].TypeWidened? && !PreparedAt(timeline, live, j)
    requires ApplyAll(live, Kept(timeline[..j], keep)).Ok?
    requires forall e :: keep(e) ==> e.offset <= timeline[j].offset
    ensures timeline[j].target !in ApplyAll(live, Kept(timeline[..j], keep)).value
  {
    var front := Kept(timeline[..j], keep);
    ColumnsAfter(live, front, timeline[j].target);
    KeptHolds(timeline[..j], keep);
    forall other | other in front ensures !Adds(other, timeline[j].target) {
      var i :| 0 <= i < j && timeline[..j][i] == other;
      assert timeline[i] == other;
    }
  }

  /** No tick fails, whichever days are ticked or skipped, exactly when every widened column is there at the start or
      added by an event that is listed first and comes due no later. */
  lemma {:induction false} NoTickFailsExactlyWhenPrepared(timeline: seq<DriftEvent>, anchor: int, live: Schema)
    requires DistinctNames(timeline)
    ensures (forall dates :: Ascending(dates) ==> NoTickFails(timeline, anchor, State(live, []), dates))
            <==> Prepared(timeline, live)
  {
    if Prepared(timeline, live) {
      forall dates | Ascending(dates) ensures NoTickFails(timeline, anchor, State(live, []), dates) {
        PreparedNeverFails(timeline, anchor, live, dates);
        TicksFireArrivals(timeline, anchor, State(live, []), dates);
      }
    } else {
      var j :| 0 <= j < |timeline| && timeline[j].TypeWidened? && !PreparedAt(timeline, live, j);
      var date := anchor + timeline[j].offset;
      UnpreparedFails(timeline, anchor, live, j, date);
      FirstTick(timeline, anchor, State(live, []), date);
      assert Ascending([date]) && !NoTickFails(timeline, anchor, State(live, []), [date]);
    }
  }

  // ---------------------------------------------------------------- the log and the schemas

  /** Firing one more event applies it to what the others left and logs it behind them. */
  lemma {:induction false} NextFiring(s: State, front: seq<DriftEvent>, e: DriftEvent)
    requires ApplyAll(s.live, front).Ok?
    ensures ApplyAll(s.live, front + [e]) == Exec(ApplyAll(s.live, front).value, e.Apply())
    ensures s.log + NamesOf(front + [e]) == s.log + NamesOf(front) + [e.name]
  {
    assert (front + [e])[..|front|] == front;
  }

  lemma {:induction false} MatchesPrefix(timeline: seq<DriftEvent>, documented: seq<Column>, log: seq<string>, n: nat)
    requires n <= |log| && MatchesAlong(timeline, documented, log)
    ensures MatchesAlong(timeline, documented, log[..n])
    decreases |log|
  {
    if n < |log| {
      assert log[..|log| - 1][..n] == log[..n];
      MatchesPrefix(timeline, documented, log[..|log| - 1], n);
    } else {
      assert log[..n] == log;
    }
  }

  lemma {:induction false} FiringFollowsTheLog(
    timeline: seq<DriftEvent>, documented: seq<Column>, s: State, due: seq<DriftEvent>)
    requires DistinctNames(timeline) && forall e :: e in due ==> e in timeline
    requires s.live == SchemaOf(Deltas(timeline, documented, s.log))
    requires MatchesAlong(timeline, documented, s.log + NamesOf(due))
    ensures ApplyAll(s.live, due) == Ok(SchemaOf(Deltas(timeline, documented, s.log + NamesOf(due))))
  {
    if due == [] {
      assert s.log + NamesOf(due) == s.log;
    } else {
      var n := |due| - 1;
      assert due == due[..n] + [due[n]];
      FiringNextFollowsTheLog(timeline, documented, s, due[..n], due[n]);
      FiringFollowsTheLog(timeline, documented, s, due[..n]);
      NextFiring(s, due[..n], due[n]);
    }
  }

  /** What matches along the longer log matches along the shorter, and the last event moves both schemas alike. */
  lemma {:induction false} FiringNextFollowsTheLog(
    timeline: seq<DriftEvent>, documented: seq<Column>, s: State, front: seq<DriftEvent>, e: DriftEvent)
    requires DistinctNames(timeline) && e in timeline
    requires MatchesAlong(timeline, documented, s.log + NamesOf(front + [e]))
    ensures MatchesAlong(timeline, documented, s.log + NamesOf(front))
    ensures Exec(SchemaOf(Deltas(timeline, documented, s.log + NamesOf(front))), e.Apply())
         == Ok(SchemaOf(Deltas(timeline, documented, s.log + NamesOf(front + [e]))))
  {
    var before := s.log + NamesOf(front);
    assert (front + [e])[..|front|] == front;
    assert s.log + NamesOf(front + [e]) == before + [e.name];
    MatchesBefore(timeline, documented, before, e.name);
    NamedOnce(timeline, e);
    NextMatches(timeline, documented, before, e);
  }

  lemma {:induction false} MatchesBefore(
    timeline: seq<DriftEvent>, documented: seq<Column>, log: seq<string>, name: string)
    requires MatchesAlong(timeline, documented, log + [name])
    ensures MatchesAlong(timeline, documented, log)
    ensures EventByName(timeline, name).Some?
    ensures EventByName(timeline, name).value.ReversalMatches(SchemaOf(Deltas(timeline, documented, log)))
  {
    assert (log + [name])[..|log|] == log;
  }

  /** For any timeline at all, whatever ticks fail: as long as the reversals match along the log, the live schema is the
      dictionary plus the log's deltas, and reverting newest first gives back the dictionary's schema. */
  lemma {:induction false} LiveFollowsTheLog(
    timeline: seq<DriftEvent>, anchor: int, documented: seq<Column>, dates: seq<int>)
    requires DistinctNames(timeline)
    requires MatchesAlong(timeline, documented, Run(timeline, anchor, State(SchemaOf(documented), []), dates).log)
    ensures var s := Run(timeline, anchor, State(SchemaOf(documented), []), dates);
            && s.live == SchemaOf(Deltas(timeline, documented, s.log))
            && Reverted(timeline, s.live, s.log) == Ok(SchemaOf(documented))
  {
    var start := State(SchemaOf(documented), []);
    var s := Run(timeline, anchor, start, dates);
    if dates != [] {
      var n := |dates| - 1;
      var before := Run(timeline, anchor, start, dates[..n]);
      var due := DueEvents(timeline, anchor, dates[n], Fired(before));
      assert s.log[..|before.log|] == before.log;
      MatchesPrefix(timeline, documented, s.log, |before.log|);
      LiveFollowsTheLog(timeline, anchor, documented, dates[..n]);
      if Ticked(timeline, anchor, before, dates[n]).Ok? {
        FiringFollowsTheLog(timeline, documented, before, due);
      }
    }
    RevertingGivesBackTheDictionary(timeline, documented, s.log);
  }
}
