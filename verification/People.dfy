/** How many customers sign up in each month, and on which day each of them does. */
module People {
  import opened Rows
  import opened Calendar
  import opened Sorting

  function Total(sizes: seq<int>): int {
    if sizes == [] then 0 else Total(sizes[..|sizes| - 1]) + sizes[|sizes| - 1]
  }

  function Weight(weights: seq<real>): real {
    if weights == [] then 0.0 else Weight(weights[..|weights| - 1]) + weights[|weights| - 1]
  }

  lemma {:induction false} TotalUpdate(sizes: seq<int>, i: nat, size: int)
    requires i < |sizes|
    ensures Total(sizes[i := size]) == Total(sizes) - sizes[i] + size
  {
    var last := |sizes| - 1;
    if i == last {
      assert sizes[i := size][..last] == sizes[..last];
    } else {
      TotalUpdate(sizes[..last], i, size);
      assert sizes[i := size][..last] == sizes[..last][i := size];
    }
  }

  /** The whole-number share of `remaining` a weight earns, rounded down. */
  function Share(remaining: nat, weight: real, total: real): int
    requires total > 0.0
  {
    (remaining as real * weight / total).Floor
  }

  function Shares(remaining: nat, weights: seq<real>, total: real): seq<int>
    requires total > 0.0
  {
    seq(|weights|, i requires 0 <= i < |weights| => Share(remaining, weights[i], total))
  }

  lemma {:induction false} ShareBounds(remaining: nat, weight: real, total: real)
    requires total > 0.0 && weight >= 0.0
    ensures 0 <= Share(remaining, weight, total)
    ensures Share(remaining, weight, total) as real <= (remaining as real / total) * weight
  {
    var exact := remaining as real * weight / total;
    assert exact == (remaining as real / total) * weight;
    assert remaining as real * weight >= 0.0;
    assert exact >= 0.0;
  }

  /** Rounding each share down never hands out more customers than there are. */
  lemma {:induction false} SharesFit(remaining: nat, weights: seq<real>, total: real)
    requires total > 0.0 && forall i :: 0 <= i < |weights| ==> weights[i] >= 0.0
    ensures Total(Shares(remaining, weights, total)) as real <= (remaining as real / total) * Weight(weights)
  {
    var perUnit := remaining as real / total;
    if weights == [] {
      assert perUnit * 0.0 == 0.0;
    } else {
      var front, last := weights[..|weights| - 1], weights[|weights| - 1];
      SharesFit(remaining, front, total);
      ShareBounds(remaining, last, total);
      Distribute(perUnit, Weight(front), last);
      assert Shares(remaining, weights, total)[..|front|] == Shares(remaining, front, total);
    }
  }

  lemma {:induction false} Distribute(k: real, a: real, b: real)
    ensures k * (a + b) == k * a + k * b
  {
  }

  lemma {:induction false} SharesLeaveNothingOwed(remaining: nat, weights: seq<real>)
    requires Weight(weights) > 0.0 && forall i :: 0 <= i < |weights| ==> weights[i] >= 0.0
    ensures Total(Shares(remaining, weights, Weight(weights))) <= remaining
    ensures forall i :: 0 <= i < |weights| ==> Shares(remaining, weights, Weight(weights))[i] >= 0
  {
    var total := Weight(weights);
    SharesFit(remaining, weights, total);
    assert (remaining as real / total) * total == remaining as real;
    forall i | 0 <= i < |weights| ensures Shares(remaining, weights, total)[i] >= 0 {
      ShareBounds(remaining, weights[i], total);
    }
  }

  /** The first of the largest months. */
  function Largest(sizes: seq<int>): (largest: nat)
    requires sizes != []
    ensures largest < |sizes| && forall i :: 0 <= i < |sizes| ==> sizes[i] <= sizes[largest]
    ensures forall i :: 0 <= i < largest ==> sizes[i] < sizes[largest]
  {
    if |sizes| == 1 then 0
    else
      var front := Largest(sizes[..|sizes| - 1]);
      if sizes[|sizes| - 1] > sizes[front] then |sizes| - 1 else front
  }

  method IndexOfLargest(sizes: seq<int>) returns (largest: nat)
    requires sizes != []
    ensures largest == Largest(sizes)
  {
    largest := 0;
    for i := 1 to |sizes|
      invariant largest < i && forall k :: 0 <= k < i ==> sizes[k] <= sizes[largest]
      invariant forall k :: 0 <= k < largest ==> sizes[k] < sizes[largest]
    {
      if sizes[i] > sizes[largest] {
        largest := i;
      }
    }
  }

  /** How many customers each month gains: its share, rounded down, and what rounding leaves to the largest. */
  function SizesOf(remaining: nat, weights: seq<real>): (sizes: seq<int>)
    requires weights != [] && Weight(weights) > 0.0
    ensures |sizes| == |weights|
  {
    var shares := Shares(remaining, weights, Weight(weights));
    shares[Largest(shares) := shares[Largest(shares)] + remaining - Total(shares)]
  }

  /** The split is exact, and no month's size is negative. */
  lemma {:induction false} SizesAddUp(remaining: nat, weights: seq<real>)
    requires weights != [] && (forall i :: 0 <= i < |weights| ==> weights[i] >= 0.0) && Weight(weights) > 0.0
    ensures Total(SizesOf(remaining, weights)) == remaining
    ensures forall i :: 0 <= i < |weights| ==>
              SizesOf(remaining, weights)[i] >= Share(remaining, weights[i], Weight(weights)) >= 0
  {
    var shares := Shares(remaining, weights, Weight(weights));
    SharesLeaveNothingOwed(remaining, weights);
    TotalUpdate(shares, Largest(shares), shares[Largest(shares)] + remaining - Total(shares));
    forall i | 0 <= i < |weights|
      ensures SizesOf(remaining, weights)[i] >= Share(remaining, weights[i], Weight(weights)) >= 0
    {
      assert shares[i] >= 0 && shares[i] == Share(remaining, weights[i], Weight(weights));
    }
  }

  /** Each month's size is its exact share of the customers rounded down, but for one month, of those with the greatest
      such share, which takes what rounding leaves and so no less. */
  lemma {:induction false} SizesAreProportional(remaining: nat, weights: seq<real>) returns (largest: nat)
    requires weights != [] && (forall i :: 0 <= i < |weights| ==> weights[i] >= 0.0) && Weight(weights) > 0.0
    ensures largest < |weights|
    ensures forall i :: 0 <= i < |weights| && i != largest ==>
              RoundedDown(SizesOf(remaining, weights)[i], remaining as real * weights[i] / Weight(weights))
    ensures SizesOf(remaining, weights)[largest] as real + 1.0
         > remaining as real * weights[largest] / Weight(weights)
    ensures forall i :: 0 <= i < |weights| ==>
              SizesOf(remaining, weights)[i] <= SizesOf(remaining, weights)[largest]
  {
    var shares := Shares(remaining, weights, Weight(weights));
    largest := Largest(shares);
    SharesLeaveNothingOwed(remaining, weights);
    forall i | 0 <= i < |weights|
      ensures RoundedDown(shares[i], remaining as real * weights[i] / Weight(weights))
    {
      assert shares[i] == Share(remaining, weights[i], Weight(weights));
    }
  }

  predicate RoundedDown(whole: int, exact: real) {
    whole as real <= exact < whole as real + 1.0
  }

  /** Splits `remaining` customers over the months in proportion to their weights; the largest month takes what
      rounding down leaves, so the split is exact. */
  method CohortSizes(remaining: nat, weights: seq<real>) returns (sizes: seq<int>)
    requires weights != [] && (forall i :: 0 <= i < |weights| ==> weights[i] >= 0.0) && Weight(weights) > 0.0
    ensures sizes == SizesOf(remaining, weights) && Total(sizes) == remaining
    ensures forall i :: 0 <= i < |sizes| ==> sizes[i] >= 0
  {
    sizes := Shares(remaining, weights, Weight(weights));
    var at := IndexOfLargest(sizes);
    SizesAddUp(remaining, weights);
    sizes := sizes[at := sizes[at] + remaining - Total(sizes)];
  }

  /** Customers who sign up together: a day naming them, and the last day of its month. */
  datatype Cohort = Cohort(day: int, monthEnd: int, size: int)

  /** The opening book, one customer to a cohort over the two years before the history. */
  function OpeningCohorts(start: int, initial: nat, offsets: nat -> nat): (cohorts: seq<Cohort>)
    ensures |cohorts| == initial && forall i :: 0 <= i < |cohorts| ==> OpeningCohort(cohorts[i], start)
  {
    if initial == 0 then []
    else
      var day := start - (1 + offsets(initial - 1) % 729);
      OpeningCohorts(start, initial - 1, offsets) + [Cohort(day, day, 1)]
  }

  /** Each of them signed up on the day drawn, which is any of those two years. */
  lemma {:induction false} OpeningBookIsAsDrawn(start: int, initial: nat, offsets: nat -> nat, i: nat)
    requires i < initial
    ensures OpeningCohorts(start, initial, offsets)[i].day == start - 1 - offsets(i) % 729
  {
    if i < initial - 1 {
      OpeningBookIsAsDrawn(start, initial - 1, offsets, i);
    }
  }

  /** A cohort for every month that gains a customer. */
  function MonthCohorts(spans: seq<Span>, sizes: seq<int>): seq<Cohort>
    requires |sizes| == |spans|
  {
    if spans == [] then []
    else
      var m := |spans| - 1;
      MonthCohorts(spans[..m], sizes[..m]) + if sizes[m] > 0 then [MonthCohort(spans[m], sizes[m])] else []
  }

  /** The opening book, then a cohort a month. */
  method Cohorts(start: int, initial: nat, offsets: nat -> nat, spans: seq<Span>, sizes: seq<int>)
    returns (cohorts: seq<Cohort>)
    requires |sizes| == |spans|
    ensures cohorts == OpeningCohorts(start, initial, offsets) + MonthCohorts(spans, sizes)
  {
    cohorts := [];
    for i := 0 to initial
      invariant cohorts == OpeningCohorts(start, i, offsets)
    {
      var day := start - (1 + offsets(i) % 729);
      cohorts := cohorts + [Cohort(day, day, 1)];
    }
    for m := 0 to |spans|
      invariant cohorts == OpeningCohorts(start, initial, offsets) + MonthCohorts(spans[..m], sizes[..m])
    {
      assert spans[..m + 1][..m] == spans[..m] && sizes[..m + 1][..m] == sizes[..m];
      if sizes[m] > 0 {
        cohorts := cohorts + [MonthCohort(spans[m], sizes[m])];
      }
    }
    assert spans[..|spans|] == spans && sizes[..|sizes|] == sizes;
  }

  predicate OpeningCohort(c: Cohort, start: int) {
    c.size == 1 && start - 729 <= c.day < start
  }

  function MonthCohort(span: Span, size: int): Cohort {
    Cohort(span.opens, span.opens + span.days - 1, size)
  }

  function SizeOf(): Cohort -> int {
    (c: Cohort) => c.size
  }

  /** The cohorts together are the configured customers. */
  lemma {:induction false} CohortsAddUp(
    start: int, initial: nat, offsets: nat -> nat, spans: seq<Span>, sizes: seq<int>)
    requires |sizes| == |spans| && forall i :: 0 <= i < |sizes| ==> sizes[i] >= 0
    ensures Sum(OpeningCohorts(start, initial, offsets) + MonthCohorts(spans, sizes), SizeOf())
            == initial + Total(sizes)
  {
    OpeningsAddUp(start, initial, offsets);
    MonthsAddUp(spans, sizes);
    SumConcat(OpeningCohorts(start, initial, offsets), MonthCohorts(spans, sizes), SizeOf());
  }

  lemma {:induction false} OpeningsAddUp(start: int, initial: nat, offsets: nat -> nat)
    ensures Sum(OpeningCohorts(start, initial, offsets), SizeOf()) == initial
  {
    if initial > 0 {
      OpeningsAddUp(start, initial - 1, offsets);
      var cohorts := OpeningCohorts(start, initial, offsets);
      SumAppend(OpeningCohorts(start, initial - 1, offsets), cohorts[initial - 1], SizeOf());
    }
  }

  lemma {:induction false} MonthsAddUp(spans: seq<Span>, sizes: seq<int>)
    requires |sizes| == |spans| && forall i :: 0 <= i < |sizes| ==> sizes[i] >= 0
    ensures Sum(MonthCohorts(spans, sizes), SizeOf()) == Total(sizes)
  {
    if spans != [] {
      var m := |spans| - 1;
      MonthsAddUp(spans[..m], sizes[..m]);
      if sizes[m] > 0 {
        SumAppend(MonthCohorts(spans[..m], sizes[..m]), MonthCohort(spans[m], sizes[m]), SizeOf());
      } else {
        assert MonthCohorts(spans, sizes) == MonthCohorts(spans[..m], sizes[..m]);
      }
    }
  }

  /** The first day a cohort's customers may be drawn on, and how many days are open to them. */
  function FirstDay(c: Cohort, start: int): int {
    Max(c.day, start)
  }

  function Available(c: Cohort, start: int, anchor: int): int {
    Min(c.monthEnd, anchor) - FirstDay(c, start) + 1
  }

  /** The signup day of one customer of a cohort. A cohort of one whose day precedes the history keeps that day. */
  function SignupDay(c: Cohort, start: int, anchor: int, draw: nat): int
    requires Available(c, start, anchor) > 0 || (c.size == 1 && c.day < start)
  {
    if c.size == 1 && c.day < start then c.day else FirstDay(c, start) + draw % Available(c, start, anchor)
  }

  /** A month whose window overlaps the history has days to draw from. */
  ghost predicate Overlaps(span: Span, start: int, anchor: int) {
    span.opens <= anchor && start <= span.opens + span.days - 1
    && span.opens <= span.opens + span.days - 1 && start <= anchor
  }

  /** A month's signups fall inside the history, with one exception: a first month cut by the start of the history
      that earns exactly one customer signs that customer up on the first of the month, before the history. */
  lemma {:induction false} SignupsFallInHistory(span: Span, size: int, start: int, anchor: int, draw: nat)
    requires Overlaps(span, start, anchor) && size >= 1
    ensures Available(MonthCohort(span, size), start, anchor) > 0
    ensures start <= SignupDay(MonthCohort(span, size), start, anchor, draw) <= anchor
            <==> !(size == 1 && span.opens < start)
  {
  }

  /** Any day of the month that lies in the history can be drawn. */
  lemma {:induction false} AnySignupDayCanBeDrawn(c: Cohort, start: int, anchor: int, day: int)
    requires c.day <= day <= c.monthEnd && start <= day <= anchor && !(c.size == 1 && c.day < start)
    ensures day - Max(c.day, start) >= 0 && Available(c, start, anchor) > 0
    ensures SignupDay(c, start, anchor, day - Max(c.day, start)) == day
  {
  }

  lemma {:induction false} LoneFirstSignupPredatesHistory()
    ensures var span := Span(1, 31, 15, 31);
            Overlaps(span, 15, 100) && SignupDay(MonthCohort(span, 1), 15, 100, 0) == 1 < 15
  {
  }

  function DayKey(): int -> Key {
    (day: int) => Key(day, 0, 0)
  }

  /** A cohort whose customers can be drawn: its month leaves days, or it is one customer of the opening book. */
  predicate Drawable(c: Cohort, start: int, anchor: int) {
    c.size >= 1 && start - 729 <= c.day && (Available(c, start, anchor) > 0 || OpeningCohort(c, start))
  }

  /** The signup days of a cohort's first `n` customers. */
  function DaysOf(c: Cohort, start: int, anchor: int, draw: nat -> nat, n: nat): (days: seq<int>)
    requires Drawable(c, start, anchor)
    ensures |days| == n
  {
    if n == 0 then [] else DaysOf(c, start, anchor, draw, n - 1) + [SignupDay(c, start, anchor, draw(n - 1))]
  }

  /** The signup days of one cohort: one for each of its customers. */
  method CohortDays(c: Cohort, start: int, anchor: int, draw: nat -> nat) returns (days: seq<int>)
    requires Drawable(c, start, anchor)
    ensures days == DaysOf(c, start, anchor, draw, c.size)
  {
    if c.size == 1 && c.day < start {
      return [c.day];
    }
    days := [];
    for k := 0 to c.size
      invariant days == DaysOf(c, start, anchor, draw, k)
    {
      days := days + [SignupDay(c, start, anchor, draw(k))];
    }
  }

  ghost predicate AllDrawable(cohorts: seq<Cohort>, start: int, anchor: int) {
    forall i :: 0 <= i < |cohorts| ==> Drawable(cohorts[i], start, anchor)
  }

  /** Cohort by cohort, everyone's signup day. */
  ghost function AllDays(cohorts: seq<Cohort>, start: int, anchor: int, draws: nat -> nat -> nat): seq<int>
    requires AllDrawable(cohorts, start, anchor)
  {
    if cohorts == [] then []
    else
      var n := |cohorts| - 1;
      AllDays(cohorts[..n], start, anchor, draws) + DaysOf(cohorts[n], start, anchor, draws(n), cohorts[n].size)
  }

  lemma {:induction false} EveryoneHasADay(cohorts: seq<Cohort>, start: int, anchor: int, draws: nat -> nat -> nat)
    requires AllDrawable(cohorts, start, anchor)
    ensures |AllDays(cohorts, start, anchor, draws)| == Sum(cohorts, SizeOf())
  {
    if cohorts != [] {
      EveryoneHasADay(cohorts[..|cohorts| - 1], start, anchor, draws);
    }
  }

  /** Nobody signs up more than two years before the history, or past the anchor. */
  lemma {:induction false} DaysBounded(c: Cohort, start: int, anchor: int, draw: nat -> nat, n: nat, i: nat)
    requires Drawable(c, start, anchor) && start <= anchor && i < n
    ensures start - 729 <= DaysOf(c, start, anchor, draw, n)[i] <= anchor
  {
    if i < n - 1 {
      DaysBounded(c, start, anchor, draw, n - 1, i);
    }
  }

  lemma {:induction false} AllDaysBounded(
    cohorts: seq<Cohort>, start: int, anchor: int, draws: nat -> nat -> nat, day: int)
    requires AllDrawable(cohorts, start, anchor) && start <= anchor && day in AllDays(cohorts, start, anchor, draws)
    ensures start - 729 <= day <= anchor
  {
    var n := |cohorts| - 1;
    if day in AllDays(cohorts[..n], start, anchor, draws) {
      AllDaysBounded(cohorts[..n], start, anchor, draws, day);
    } else {
      var days := DaysOf(cohorts[n], start, anchor, draws(n), cohorts[n].size);
      var i :| 0 <= i < |days| && days[i] == day;
      DaysBounded(cohorts[n], start, anchor, draws(n), cohorts[n].size, i);
    }
  }

  /** Every month of the history leaves days to draw from. */
  ghost predicate MonthsOverlap(spans: seq<Span>, start: int, anchor: int) {
    forall m :: 0 <= m < |spans| ==> Overlaps(spans[m], start, anchor) && start - 31 < spans[m].opens
  }

  lemma {:induction false} MonthsDrawable(spans: seq<Span>, sizes: seq<int>, start: int, anchor: int)
    requires |sizes| == |spans| && MonthsOverlap(spans, start, anchor)
    ensures AllDrawable(MonthCohorts(spans, sizes), start, anchor)
  {
    if spans != [] {
      MonthsDrawable(spans[..|spans| - 1], sizes[..|spans| - 1], start, anchor);
    }
  }

  /** What a run's cohorts are: the opening book and the months, split by weight. */
  function CohortsOf(
    start: int, customers: nat, initial: nat, offsets: nat -> nat, weights: seq<real>, spans: seq<Span>): seq<Cohort>
    requires initial <= customers && weights != [] && |weights| == |spans| && Weight(weights) > 0.0
  {
    OpeningCohorts(start, initial, offsets) + MonthCohorts(spans, SizesOf(customers - initial, weights))
  }

  /** They can all be drawn from, and together they are the configured customers. */
  lemma {:induction false} CohortsDrawable(
    start: int, anchor: int, customers: nat, initial: nat, offsets: nat -> nat, weights: seq<real>, spans: seq<Span>)
    requires initial <= customers && weights != [] && |weights| == |spans| && MonthsOverlap(spans, start, anchor)
    requires (forall i :: 0 <= i < |weights| ==> weights[i] >= 0.0) && Weight(weights) > 0.0
    ensures AllDrawable(CohortsOf(start, customers, initial, offsets, weights, spans), start, anchor)
    ensures Sum(CohortsOf(start, customers, initial, offsets, weights, spans), SizeOf()) == customers
  {
    var sizes := SizesOf(customers - initial, weights);
    SizesAddUp(customers - initial, weights);
    MonthsDrawable(spans, sizes, start, anchor);
    CohortsAddUp(start, initial, offsets, spans, sizes);
    MoreDrawable(OpeningCohorts(start, initial, offsets), MonthCohorts(spans, sizes), start, anchor);
  }

  lemma {:induction false} MoreDrawable(one: seq<Cohort>, two: seq<Cohort>, start: int, anchor: int)
    requires forall i :: 0 <= i < |one| ==> OpeningCohort(one[i], start)
    requires AllDrawable(two, start, anchor)
    ensures AllDrawable(one + two, start, anchor)
  {
    forall i | 0 <= i < |one + two| ensures Drawable((one + two)[i], start, anchor) {
      assert (one + two)[i] == if i < |one| then one[i] else two[i - |one|];
    }
  }

  /** One signup day per customer, oldest first. `weights` are the months' acquisition weights. */
  method SignupDates(
    start: int, anchor: int, customers: nat, initial: nat, offsets: nat -> nat, weights: seq<real>,
    spans: seq<Span>, draws: nat -> nat -> nat)
    returns (dates: seq<int>)
    requires initial <= customers && weights != [] && |weights| == |spans| && start <= anchor
    requires (forall i :: 0 <= i < |weights| ==> weights[i] >= 0.0) && Weight(weights) > 0.0
    requires MonthsOverlap(spans, start, anchor)
    ensures var cohorts := CohortsOf(start, customers, initial, offsets, weights, spans);
            AllDrawable(cohorts, start, anchor) && dates == SortedBy(AllDays(cohorts, start, anchor, draws), DayKey())
    ensures |dates| == customers && forall i :: 0 <= i < |dates| ==> start - 729 <= dates[i] <= anchor
    ensures forall i, k :: 0 <= i < k < |dates| ==> dates[i] <= dates[k]
  {
    var sizes := CohortSizes(customers - initial, weights);
    var cohorts := Cohorts(start, initial, offsets, spans, sizes);
    CohortsDrawable(start, anchor, customers, initial, offsets, weights, spans);
    dates := DrawDates(cohorts, start, anchor, customers, draws);
  }

  /** Draws everyone's day, oldest first. */
  method DrawDates(
    cohorts: seq<Cohort>, start: int, anchor: int, customers: nat, draws: nat -> nat -> nat)
    returns (dates: seq<int>)
    requires AllDrawable(cohorts, start, anchor) && start <= anchor && Sum(cohorts, SizeOf()) == customers
    ensures dates == SortedBy(AllDays(cohorts, start, anchor, draws), DayKey())
    ensures |dates| == customers && forall i :: 0 <= i < |dates| ==> start - 729 <= dates[i] <= anchor
    ensures forall i, k :: 0 <= i < k < |dates| ==> dates[i] <= dates[k]
  {
    var unsorted := DrawDays(cohorts, start, anchor, draws);
    var sorted := Sorted(unsorted, DayKey());
    SortedDays(sorted, unsorted, start, anchor);
    OldestFirst(unsorted);
    assert sorted[..customers] == sorted;
    dates := sorted[..customers];
  }

  /** Draws everyone's day, cohort by cohort. */
  method DrawDays(cohorts: seq<Cohort>, start: int, anchor: int, draws: nat -> nat -> nat) returns (days: seq<int>)
    requires AllDrawable(cohorts, start, anchor) && start <= anchor
    ensures days == AllDays(cohorts, start, anchor, draws) && |days| == Sum(cohorts, SizeOf())
    ensures forall i :: 0 <= i < |days| ==> start - 729 <= days[i] <= anchor
  {
    days := [];
    for n := 0 to |cohorts|
      invariant days == AllDays(cohorts[..n], start, anchor, draws)
    {
      assert cohorts[..n + 1][..n] == cohorts[..n];
      var own := CohortDays(cohorts[n], start, anchor, draws(n));
      days := days + own;
    }
    assert cohorts[..|cohorts|] == cohorts;
    EveryoneHasADay(cohorts, start, anchor, draws);
    forall i | 0 <= i < |days| ensures start - 729 <= days[i] <= anchor {
      AllDaysBounded(cohorts, start, anchor, draws, days[i]);
    }
  }

  lemma {:induction false} OldestFirst(days: seq<int>)
    ensures forall i, k :: 0 <= i < k < |SortedBy(days, DayKey())| ==>
              SortedBy(days, DayKey())[i] <= SortedBy(days, DayKey())[k]
  {
    SortedByOrders(days, DayKey());
    var sorted := SortedBy(days, DayKey());
    forall i, k | 0 <= i < k < |sorted| ensures sorted[i] <= sorted[k] {
      assert AtMost(DayKey()(sorted[i]), DayKey()(sorted[k]));
    }
  }

  lemma {:induction false} SortedDays(sorted: seq<int>, unsorted: seq<int>, start: int, anchor: int)
    requires multiset(sorted) == multiset(unsorted)
    requires forall i :: 0 <= i < |unsorted| ==> start - 729 <= unsorted[i] <= anchor
    ensures |sorted| == |unsorted| && forall i :: 0 <= i < |sorted| ==> start - 729 <= sorted[i] <= anchor
  {
    assert |sorted| == |multiset(sorted)| == |multiset(unsorted)| == |unsorted|;
    forall i | 0 <= i < |sorted| ensures start - 729 <= sorted[i] <= anchor {
      SameMembers(sorted, unsorted, sorted[i]);
    }
  }

  // ---------------------------------------------------------------- how many sign up in each month

  /** One for a day inside the month's window, so a sum counts the days there. */
  function DayIn(span: Span): int -> int {
    (day: int) => if Within(span, day) then 1 else 0
  }

  /** A cohort's days fall in its own month's window, all of them, the lone exception aside, and in no other's. */
  lemma {:induction false} CohortDaysFall(
    spans: seq<Span>, start: int, anchor: int, k: nat, size: int, draw: nat -> nat, n: nat, m: nat)
    requires Tiles(spans, start, anchor) && k < |spans| && m < |spans| && size >= 1
    requires Drawable(MonthCohort(spans[k], size), start, anchor)
    ensures Sum(DaysOf(MonthCohort(spans[k], size), start, anchor, draw, n), DayIn(spans[m]))
         == if m == k && !(size == 1 && spans[k].opens < start) then n else 0
  {
    if n > 0 {
      CohortDaysFall(spans, start, anchor, k, size, draw, n - 1, m);
      var c := MonthCohort(spans[k], size);
      var day := SignupDay(c, start, anchor, draw(n - 1));
      SumAppend(DaysOf(c, start, anchor, draw, n - 1), day, DayIn(spans[m]));
      DayFallsInItsMonth(spans, start, anchor, k, size, draw(n - 1), m);
    }
  }

  lemma {:induction false} DayFallsInItsMonth(
    spans: seq<Span>, start: int, anchor: int, k: nat, size: int, draw: nat, m: nat)
    requires Tiles(spans, start, anchor) && k < |spans| && m < |spans| && size >= 1
    requires Drawable(MonthCohort(spans[k], size), start, anchor)
    ensures Within(spans[m], SignupDay(MonthCohort(spans[k], size), start, anchor, draw))
            <==> m == k && !(size == 1 && spans[k].opens < start)
  {
    var day := SignupDay(MonthCohort(spans[k], size), start, anchor, draw);
    TilesWithin(spans, start, anchor, k);
    TilesWithin(spans, start, anchor, m);
    if size == 1 && spans[k].opens < start {
      assert day < start;
    } else {
      assert Within(spans[k], day);
      if m < k {
        TilesAscend(spans, start, anchor, m, k);
      } else if k < m {
        TilesAscend(spans, start, anchor, k, m);
      }
    }
  }

  /** The opening book signs up before every window. */
  lemma {:induction false} OpeningDaysPrecede(
    cohorts: seq<Cohort>, start: int, anchor: int, draws: nat -> nat -> nat, span: Span)
    requires AllDrawable(cohorts, start, anchor) && start <= span.first
    requires forall i :: 0 <= i < |cohorts| ==> OpeningCohort(cohorts[i], start)
    ensures Sum(AllDays(cohorts, start, anchor, draws), DayIn(span)) == 0
  {
    if cohorts != [] {
      var n := |cohorts| - 1;
      var c := cohorts[n];
      OpeningDaysPrecede(cohorts[..n], start, anchor, draws, span);
      var own := DaysOf(c, start, anchor, draws(n), 1);
      assert own == [c.day] && OpeningCohort(c, start);
      SumAppend(AllDays(cohorts[..n], start, anchor, draws), c.day, DayIn(span));
    }
  }

  /** How many of the first `k` months' customers sign up in month `m`. */
  function Gains(spans: seq<Span>, sizes: seq<int>, start: int, k: nat, m: nat): int
    requires m < |spans| == |sizes|
  {
    if m >= k || sizes[m] <= 0 || (sizes[m] == 1 && spans[m].opens < start) then 0 else sizes[m]
  }

  /** The opening book and the first `k` months' cohorts. */
  function FirstCohorts(opening: seq<Cohort>, spans: seq<Span>, sizes: seq<int>, k: nat): seq<Cohort>
    requires k <= |spans| == |sizes|
  {
    opening + MonthCohorts(spans[..k], sizes[..k])
  }

  lemma {:induction false} NextCohort(opening: seq<Cohort>, spans: seq<Span>, sizes: seq<int>, k: nat)
    requires k < |spans| == |sizes|
    ensures FirstCohorts(opening, spans, sizes, k + 1)
         == if sizes[k] > 0 then FirstCohorts(opening, spans, sizes, k) + [MonthCohort(spans[k], sizes[k])]
            else FirstCohorts(opening, spans, sizes, k)
  {
    assert spans[..k + 1][..k] == spans[..k] && sizes[..k + 1][..k] == sizes[..k];
  }

  lemma {:induction false} FirstDrawable(
    opening: seq<Cohort>, spans: seq<Span>, sizes: seq<int>, start: int, anchor: int, k: nat)
    requires k <= |spans| == |sizes| && MonthsOverlap(spans, start, anchor)
    requires forall i :: 0 <= i < |opening| ==> OpeningCohort(opening[i], start)
    ensures AllDrawable(FirstCohorts(opening, spans, sizes, k), start, anchor)
  {
    MonthsDrawable(spans[..k], sizes[..k], start, anchor);
    MoreDrawable(opening, MonthCohorts(spans[..k], sizes[..k]), start, anchor);
  }

  lemma {:induction false} MonthsGain(
    opening: seq<Cohort>, spans: seq<Span>, sizes: seq<int>, start: int, anchor: int, draws: nat -> nat -> nat, k: nat,
    m: nat)
    requires Tiles(spans, start, anchor) && k <= |spans| == |sizes| && m < |spans|
    requires forall i :: 0 <= i < |opening| ==> OpeningCohort(opening[i], start)
    requires AllDrawable(FirstCohorts(opening, spans, sizes, k), start, anchor)
    ensures Sum(AllDays(FirstCohorts(opening, spans, sizes, k), start, anchor, draws), DayIn(spans[m]))
         == Gains(spans, sizes, start, k, m)
  {
    if k == 0 {
      assert FirstCohorts(opening, spans, sizes, 0) == opening;
      TilesWithin(spans, start, anchor, m);
      OpeningDaysPrecede(opening, start, anchor, draws, spans[m]);
    } else {
      FrontDrawable(opening, spans, sizes, start, anchor, k - 1);
      MonthsGain(opening, spans, sizes, start, anchor, draws, k - 1, m);
      OneMoreMonth(opening, spans, sizes, start, anchor, draws, k - 1, m);
    }
  }

  lemma {:induction false} FrontDrawable(
    opening: seq<Cohort>, spans: seq<Span>, sizes: seq<int>, start: int, anchor: int, k: nat)
    requires k < |spans| == |sizes| && AllDrawable(FirstCohorts(opening, spans, sizes, k + 1), start, anchor)
    ensures AllDrawable(FirstCohorts(opening, spans, sizes, k), start, anchor)
  {
    NextCohort(opening, spans, sizes, k);
    var front, cohorts := FirstCohorts(opening, spans, sizes, k), FirstCohorts(opening, spans, sizes, k + 1);
    forall i | 0 <= i < |front| ensures Drawable(front[i], start, anchor) {
      assert cohorts[i] == front[i];
    }
  }

  lemma {:induction false} OneMoreMonth(
    opening: seq<Cohort>, spans: seq<Span>, sizes: seq<int>, start: int, anchor: int, draws: nat -> nat -> nat, k: nat,
    m: nat)
    requires Tiles(spans, start, anchor) && k < |spans| == |sizes| && m < |spans|
    requires AllDrawable(FirstCohorts(opening, spans, sizes, k), start, anchor)
    requires AllDrawable(FirstCohorts(opening, spans, sizes, k + 1), start, anchor)
    ensures Sum(AllDays(FirstCohorts(opening, spans, sizes, k + 1), start, anchor, draws), DayIn(spans[m]))
         == Sum(AllDays(FirstCohorts(opening, spans, sizes, k), start, anchor, draws), DayIn(spans[m]))
            + Gains(spans, sizes, start, k + 1, m) - Gains(spans, sizes, start, k, m)
  {
    NextCohort(opening, spans, sizes, k);
    var front := FirstCohorts(opening, spans, sizes, k);
    if sizes[k] > 0 {
      assert FirstCohorts(opening, spans, sizes, k + 1)[|front|] == MonthCohort(spans[k], sizes[k]);
      NextMonthGains(front, spans, sizes[k], start, anchor, draws, k, m);
    }
  }

  lemma {:induction false} AllDaysNext(front: seq<Cohort>, c: Cohort, start: int, anchor: int, draws: nat -> nat -> nat)
    requires AllDrawable(front, start, anchor) && Drawable(c, start, anchor)
    ensures AllDrawable(front + [c], start, anchor)
    ensures AllDays(front + [c], start, anchor, draws)
         == AllDays(front, start, anchor, draws) + DaysOf(c, start, anchor, draws(|front|), c.size)
  {
    assert (front + [c])[..|front|] == front;
  }

  lemma {:induction false} NextMonthGains(
    front: seq<Cohort>, spans: seq<Span>, size: int, start: int, anchor: int, draws: nat -> nat -> nat, k: nat, m: nat)
    requires Tiles(spans, start, anchor) && k < |spans| && m < |spans| && size > 0
    requires AllDrawable(front, start, anchor) && Drawable(MonthCohort(spans[k], size), start, anchor)
    ensures AllDrawable(front + [MonthCohort(spans[k], size)], start, anchor)
    ensures Sum(AllDays(front + [MonthCohort(spans[k], size)], start, anchor, draws), DayIn(spans[m]))
         == Sum(AllDays(front, start, anchor, draws), DayIn(spans[m]))
            + if m == k && !(size == 1 && spans[k].opens < start) then size else 0
  {
    var c := MonthCohort(spans[k], size);
    AllDaysNext(front, c, start, anchor, draws);
    SumConcat(AllDays(front, start, anchor, draws), DaysOf(c, start, anchor, draws(|front|), size), DayIn(spans[m]));
    CohortDaysFall(spans, start, anchor, k, size, draws(|front|), size, m);
  }

  lemma {:induction false} CohortsGain(
    opening: seq<Cohort>, spans: seq<Span>, sizes: seq<int>, start: int, anchor: int, draws: nat -> nat -> nat, m: nat)
    requires Tiles(spans, start, anchor) && |spans| == |sizes| && m < |spans| && MonthsOverlap(spans, start, anchor)
    requires forall i :: 0 <= i < |opening| ==> OpeningCohort(opening[i], start)
    ensures AllDrawable(opening + MonthCohorts(spans, sizes), start, anchor)
    ensures Sum(AllDays(opening + MonthCohorts(spans, sizes), start, anchor, draws), DayIn(spans[m]))
         == Gains(spans, sizes, start, |spans|, m)
  {
    assert spans[..|spans|] == spans && sizes[..|sizes|] == sizes;
    FirstDrawable(opening, spans, sizes, start, anchor, |spans|);
    MonthsGain(opening, spans, sizes, start, anchor, draws, |spans|, m);
  }

  lemma {:induction false} SortingKeepsCounts(days: seq<int>, span: Span)
    ensures Sum(SortedBy(days, DayKey()), DayIn(span)) == Sum(days, DayIn(span))
  {
    SortedByOrders(days, DayKey());
    SumIgnoresOrder(SortedBy(days, DayKey()), days, DayIn(span));
  }

  /** Each month's window holds exactly its share of the signups, with the one exception: a lone first signup of a month
      the history cuts falls before it. */
  lemma {:induction false} EveryMonthGainsItsShare(
    start: int, anchor: int, opening: seq<Cohort>, sizes: seq<int>, spans: seq<Span>, draws: nat -> nat -> nat, m: nat)
    requires Tiles(spans, start, anchor) && |spans| == |sizes| && m < |spans| && MonthsOverlap(spans, start, anchor)
    requires sizes[m] >= 0 && forall i :: 0 <= i < |opening| ==> OpeningCohort(opening[i], start)
    ensures AllDrawable(opening + MonthCohorts(spans, sizes), start, anchor)
    ensures Sum(SortedBy(AllDays(opening + MonthCohorts(spans, sizes), start, anchor, draws), DayKey()),
                DayIn(spans[m]))
         == if sizes[m] == 1 && spans[m].opens < start then 0 else sizes[m]
  {
    CohortsGain(opening, spans, sizes, start, anchor, draws, m);
    SortingKeepsCounts(AllDays(opening + MonthCohorts(spans, sizes), start, anchor, draws), spans[m]);
  }
}
