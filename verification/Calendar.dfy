/** Civil dates, whole-month arithmetic, and the months and windows a run's history is cut into. */
module Calendar {

  /** Instants are counted in seconds from the start of day zero. */
  const DAY := 86400

  function DayOf(instant: int): int {
    instant / DAY
  }

  datatype Date = Date(year: int, month: int, day: int)

  predicate Leap(year: int) {
    year % 4 == 0 && (year % 100 != 0 || year % 400 == 0)
  }

  /** The Gregorian length of a month. */
  function MonthLength(year: int, month: int): int {
    if month == 2 then if Leap(year) then 29 else 28
    else if month == 4 || month == 6 || month == 9 || month == 11 then 30
    else 31
  }

  predicate IsDate(d: Date) {
    d.year >= 1 && 1 <= d.month <= 12 && 1 <= d.day <= MonthLength(d.year, d.month)
  }

  /** Months are numbered by `12 * year + month - 1`; the calendar begins with month twelve, January of year one. */
  function MonthIndex(d: Date): int {
    12 * d.year + d.month - 1
  }

  function FirstOf(index: int): Date {
    Date(index / 12, index % 12 + 1, 1)
  }

  function LengthOf(index: int): (n: int)
    ensures 28 <= n <= 31
  {
    MonthLength(index / 12, index % 12 + 1)
  }

  lemma {:induction false} IndexSplits(d: Date)
    requires 1 <= d.month <= 12
    ensures FirstOf(MonthIndex(d)) == d.(day := 1) && LengthOf(MonthIndex(d)) == MonthLength(d.year, d.month)
  {
    assert MonthIndex(d) / 12 == d.year && MonthIndex(d) % 12 == d.month - 1;
  }

  /** The day number of a month's first day, counting the days of every month before it. */
  function MonthStart(index: int): int
    requires index >= 12
  {
    if index == 12 then 1 else MonthStart(index - 1) + LengthOf(index - 1)
  }

  /** The day's number, counting from the first day of year one. */
  function Ordinal(d: Date): int
    requires IsDate(d)
  {
    MonthStart(MonthIndex(d)) + d.day - 1
  }

  function MonthFrom(n: int, index: int): (r: int)
    requires index >= 12 && MonthStart(index) <= n
    ensures r >= index && MonthStart(r) <= n < MonthStart(r + 1)
    decreases n - MonthStart(index)
  {
    if n < MonthStart(index + 1) then index else MonthFrom(n, index + 1)
  }

  /** The date with a given day number. */
  function DateOf(n: int): (d: Date)
    requires n >= 1
    ensures IsDate(d) && Ordinal(d) == n
  {
    var index := MonthFrom(n, 12);
    var d := FirstOf(index).(day := n - MonthStart(index) + 1);
    IndexSplits(d);
    d
  }

  lemma {:induction false} MonthsAscend(index: int, later: int)
    requires 12 <= index <= later
    ensures MonthStart(index) + 28 * (later - index) <= MonthStart(later)
    decreases later - index
  {
    if index < later {
      MonthsAscend(index, later - 1);
    }
  }

  lemma {:induction false} OwnMonth(d: Date)
    requires IsDate(d)
    ensures MonthStart(MonthIndex(d)) <= Ordinal(d) < MonthStart(MonthIndex(d) + 1)
  {
    IndexSplits(d);
  }

  /** A date lies in its own month's span, and in no other month's. */
  lemma {:induction false} DayInMonth(d: Date, index: int)
    requires IsDate(d) && index >= 12
    ensures MonthIndex(d) == index <==> MonthStart(index) <= Ordinal(d) < MonthStart(index + 1)
    ensures MonthIndex(d) < index <==> Ordinal(d) < MonthStart(index)
  {
    SpanHoldsDay(MonthIndex(d), index, Ordinal(d)) by {
      OwnMonth(d);
    }
  }

  lemma {:induction false} SpanHoldsDay(own: int, index: int, day: int)
    requires own >= 12 && index >= 12 && MonthStart(own) <= day < MonthStart(own + 1)
    ensures own == index <==> MonthStart(index) <= day < MonthStart(index + 1)
    ensures own < index <==> day < MonthStart(index)
  {
    if index < own {
      MonthsAscend(index + 1, own);
    } else if own < index {
      MonthsAscend(own + 1, index);
    }
  }

  /** The order the source compares dates in. */
  predicate Before(a: Date, b: Date) {
    a.year < b.year || (a.year == b.year && (a.month < b.month || (a.month == b.month && a.day < b.day)))
  }

  /** Comparing dates field by field is comparing their day numbers, so a day number identifies its date. */
  lemma {:induction false} BeforeIsOrdinal(a: Date, b: Date)
    requires IsDate(a) && IsDate(b)
    ensures Before(a, b) <==> Ordinal(a) < Ordinal(b)
    ensures Ordinal(a) == Ordinal(b) ==> a == b
  {
    DayInMonth(a, MonthIndex(b));
    DayInMonth(b, MonthIndex(a));
    DayInMonth(a, MonthIndex(a));
    DayInMonth(b, MonthIndex(b));
  }

  /** The source's own month length: the day before the next month's first. */
  function DaysInMonth(year: int, month: int): int
    requires year >= 1 && 1 <= month <= 12
  {
    if month == 12 then 31
    else
      LastDayNumber(year, month);
      DateOf(Ordinal(Date(year, month + 1, 1)) - 1).day
  }

  lemma {:induction false} LastDayNumber(year: int, month: int)
    requires year >= 1 && 1 <= month < 12
    ensures Ordinal(Date(year, month, MonthLength(year, month))) == Ordinal(Date(year, month + 1, 1)) - 1
    ensures Ordinal(Date(year, month + 1, 1)) > 1
  {
    var index := MonthIndex(Date(year, month, 1));
    IndexSplits(Date(year, month, 1));
    MonthsAscend(12, index);
    assert MonthIndex(Date(year, month + 1, 1)) == index + 1
           && MonthStart(index + 1) == MonthStart(index) + LengthOf(index);
  }

  /** Stepping back a day from the next month's first gives the Gregorian length, leap years included. */
  lemma {:induction false} DaysInMonthIsGregorian(year: int, month: int)
    requires year >= 1 && 1 <= month <= 12
    ensures DaysInMonth(year, month) == MonthLength(year, month)
  {
    if month < 12 {
      LastDayNumber(year, month);
      BeforeIsOrdinal(Date(year, month, MonthLength(year, month)), DateOf(Ordinal(Date(year, month + 1, 1)) - 1));
    }
  }

  function Min(a: int, b: int): int {
    if a < b then a else b
  }

  function Max(a: int, b: int): int {
    if a < b then b else a
  }

  /** The date a number of months on; `DaysInMonthIsGregorian` gives the length the clamp uses. */
  function AddMonths(d: Date, months: int): (r: Date)
    requires IsDate(d) && MonthIndex(d) + months >= 12
    ensures IsDate(r) && MonthIndex(r) == MonthIndex(d) + months
            && r.day == Min(d.day, LengthOf(MonthIndex(d) + months))
  {
    var total := MonthIndex(d) + months;
    FirstOf(total).(day := Min(d.day, LengthOf(total)))
  }

  lemma {:induction false} ClampedGap(own: int, months: nat, day: int, later: int)
    requires own >= 12 && day <= LengthOf(own)
    requires later == Min(day, LengthOf(own + months))
    ensures MonthStart(own) + day + 28 * months <= MonthStart(own + months) + later
  {
    if months > 0 {
      MonthsAscend(own + 1, own + months);
    }
  }

  lemma {:induction false} OrdinalGap(d: Date, r: Date, months: nat)
    requires IsDate(d) && IsDate(r) && MonthIndex(r) == MonthIndex(d) + months
    requires d.day <= LengthOf(MonthIndex(d)) && r.day == Min(d.day, LengthOf(MonthIndex(d) + months))
    ensures Ordinal(d) + 28 * months <= Ordinal(r)
  {
    ClampedGap(MonthIndex(d), months, d.day, r.day);
  }

  /** Each whole month moves a date at least twenty-eight days on, the clamp included. */
  lemma {:induction false} AddMonthsAdvances(d: Date, months: nat)
    requires IsDate(d)
    ensures MonthIndex(d) + months >= 12
    ensures Ordinal(d) + 28 * months <= Ordinal(AddMonths(d, months))
  {
    IndexSplits(d);
    OrdinalGap(d, AddMonths(d, months), months);
  }

  /** One month more is between four weeks and thirty-one days more, whatever either month clamps. */
  lemma {:induction false} NextMonthIsSpaced(d: Date, months: nat)
    requires IsDate(d)
    ensures MonthIndex(d) + months >= 12
    ensures 28 <= Ordinal(AddMonths(d, months + 1)) - Ordinal(AddMonths(d, months)) <= 31
  {
    var total := MonthIndex(d) + months;
    assert MonthStart(total + 1) == MonthStart(total) + LengthOf(total);
  }

  /** The anchor and how many whole months of history run up to it. */
  datatype RunConfig = RunConfig(anchor: Date, historyMonths: nat) {
    /** A date the calendar can hold: the history may not begin before year one. */
    predicate Valid() {
      IsDate(anchor) && MonthIndex(anchor) - historyMonths >= 12
    }

    function HistoryStart(): Date
      requires Valid()
    {
      AddMonths(anchor, -(historyMonths as int))
    }

    function FirstMonth(): int {
      MonthIndex(anchor) - historyMonths
    }

    function StartDay(): int
      requires Valid()
    {
      Ordinal(HistoryStart())
    }

    function AnchorDay(): int
      requires Valid()
    {
      Ordinal(anchor)
    }

    /** The first day of every month the history covers. */
    method Months() returns (months: seq<Date>)
      requires Valid()
      ensures |months| == historyMonths + 1
      ensures forall i :: 0 <= i < |months| ==> months[i] == FirstOf(FirstMonth() + i)
    {
      months := [];
      var start := HistoryStart();
      var cursor := start.(day := 1);
      IndexSplits(start);
      while !Before(anchor, cursor)
        invariant |months| <= historyMonths + 1
        invariant cursor == FirstOf(FirstMonth() + |months|)
        invariant forall i :: 0 <= i < |months| ==> months[i] == FirstOf(FirstMonth() + i)
        decreases historyMonths + 1 - |months|
      {
        months := months + [cursor];
        cursor := AddMonths(cursor, 1);
        IndexSplits(cursor);
      }
    }

    /** The part of the i-th month the history covers. */
    function WindowFirst(i: nat): int
      requires Valid()
    {
      CutFirst(FirstMonth() + i, StartDay())
    }

    function WindowLast(i: nat): int
      requires Valid()
    {
      CutLast(FirstMonth() + i, AnchorDay())
    }

    /** The start lies in the first month, the anchor in the last, and the start is not past the anchor. */
    lemma {:induction false} EndsInTheirMonths()
      requires Valid()
      ensures InMonth(StartDay(), FirstMonth()) && InMonth(AnchorDay(), FirstMonth() + historyMonths)
      ensures StartDay() <= AnchorDay()
    {
      DatesInTheirMonths(HistoryStart(), anchor);
    }

    /** Windows are non-empty, the first opens on the start, the last closes on the anchor, and each
        begins the day after the one before it ends. */
    lemma {:induction false} WindowsTile(i: nat)
      requires Valid() && i <= historyMonths
      ensures WindowFirst(i) <= WindowLast(i)
      ensures i == 0 ==> WindowFirst(i) == StartDay()
      ensures i == historyMonths ==> WindowLast(i) == AnchorDay()
      ensures i < historyMonths ==> WindowFirst(i + 1) == WindowLast(i) + 1
    {
      EndsInTheirMonths();
      CutTiles(FirstMonth(), historyMonths, StartDay(), AnchorDay(), i);
    }

    function SpanOf(i: nat): Span
      requires Valid()
    {
      Span(MonthStart(FirstMonth() + i), LengthOf(FirstMonth() + i), WindowFirst(i), WindowLast(i))
    }

    /** The windows in month order, each with the first day of the month it is cut from. */
    function Windows(): (spans: seq<Span>)
      requires Valid()
      ensures |spans| == historyMonths + 1
    {
      seq(historyMonths + 1, i requires 0 <= i => SpanOf(i))
    }

    /** They cut the history, from its start to the anchor, into consecutive, non-empty pieces. */
    lemma {:induction false} WindowsTileHistory()
      requires Valid()
      ensures Tiles(Windows(), StartDay(), AnchorDay())
    {
      EndsInTheirMonths();
      var spans, first := Windows(), FirstMonth();
      forall i: nat | i <= historyMonths ensures SpanCut(spans[i], first, historyMonths, StartDay(), AnchorDay(), i) {
        assert spans[i] == SpanOf(i);
      }
      CutsTile(spans, first, historyMonths, StartDay(), AnchorDay());
    }
  }

  predicate InMonth(day: int, index: int)
    requires index >= 12
  {
    MonthStart(index) <= day < MonthStart(index + 1)
  }

  lemma {:induction false} DatesInTheirMonths(a: Date, b: Date)
    requires IsDate(a) && IsDate(b) && MonthIndex(a) <= MonthIndex(b) && a.day <= b.day
    ensures InMonth(Ordinal(a), MonthIndex(a)) && InMonth(Ordinal(b), MonthIndex(b)) && Ordinal(a) <= Ordinal(b)
  {
    OwnMonth(a);
    OwnMonth(b);
    MonthsAscend(MonthIndex(a), MonthIndex(b));
  }

  /** The part of a month between a start and an end, both inclusive. */
  function CutFirst(index: int, start: int): int
    requires index >= 12
  {
    Max(MonthStart(index), start)
  }

  function CutLast(index: int, end: int): int
    requires index >= 12
  {
    Min(MonthStart(index + 1) - 1, end)
  }

  /** After the first month a cut begins with its month, before the last one it ends with it. */
  lemma {:induction false} CutEnds(first: int, n: nat, start: int, end: int, i: nat)
    requires first >= 12 && i <= n && InMonth(start, first) && InMonth(end, first + n)
    ensures if i == 0 then MonthStart(first + i) <= start else start < MonthStart(first + i)
    ensures if i == n then end < MonthStart(first + i + 1) else MonthStart(first + i + 1) <= end
  {
    if i > 0 {
      MonthsAscend(first + 1, first + i);
    }
    if i < n {
      MonthsAscend(first + i + 1, first + n);
    }
  }

  lemma {:induction false} CutTiles(first: int, n: nat, start: int, end: int, i: nat)
    requires first >= 12 && i <= n && start <= end && InMonth(start, first) && InMonth(end, first + n)
    ensures CutFirst(first + i, start) <= CutLast(first + i, end)
    ensures i == 0 ==> CutFirst(first + i, start) == start
    ensures i > 0 ==> CutFirst(first + i, start) == MonthStart(first + i)
    ensures i == n ==> CutLast(first + i, end) == end
    ensures i < n ==> CutFirst(first + i + 1, start) == CutLast(first + i, end) + 1
    ensures i < n ==> CutLast(first + i, end) == MonthStart(first + i + 1) - 1
  {
    CutEnds(first, n, start, end, i);
    MonthsAscend(first + i, first + i + 1);
    if i < n {
      CutEnds(first, n, start, end, i + 1);
    }
  }

  /** A span is the cut of the i-th month. */
  ghost predicate SpanCut(span: Span, first: int, n: nat, start: int, end: int, i: nat)
    requires first >= 12 && i <= n
  {
    && span.opens == MonthStart(first + i) && span.opens + span.days == MonthStart(first + i + 1)
      && 28 <= span.days <= 31
    && span.first == CutFirst(first + i, start) && span.last == CutLast(first + i, end)
  }

  lemma {:induction false} CutsTile(spans: seq<Span>, first: int, n: nat, start: int, end: int)
    requires first >= 12 && |spans| == n + 1 && start <= end && InMonth(start, first) && InMonth(end, first + n)
    requires forall i: nat :: i <= n ==> SpanCut(spans[i], first, n, start, end, i)
    ensures Tiles(spans, start, end)
  {
    CutTiles(first, n, start, end, 0);
    CutTiles(first, n, start, end, n);
    assert SpanCut(spans[0], first, n, start, end, 0) && SpanCut(spans[n], first, n, start, end, n);
    forall i | 0 <= i <= n
      ensures spans[i].opens <= spans[i].first <= spans[i].last < spans[i].opens + spans[i].days && spans[i].days <= 31
      ensures i > 0 ==> spans[i].opens == spans[i].first
    {
      CutTiles(first, n, start, end, i);
      assert SpanCut(spans[i], first, n, start, end, i);
    }
    forall i | 0 <= i < n
      ensures spans[i + 1].first == spans[i].last + 1 && spans[i].last == spans[i].opens + spans[i].days - 1
    {
      NextCut(spans, first, n, start, end, i);
    }
  }

  lemma {:induction false} NextCut(spans: seq<Span>, first: int, n: nat, start: int, end: int, i: nat)
    requires first >= 12 && i < n < |spans| && start <= end && InMonth(start, first) && InMonth(end, first + n)
    requires SpanCut(spans[i], first, n, start, end, i) && SpanCut(spans[i + 1], first, n, start, end, i + 1)
    ensures spans[i + 1].first == spans[i].last + 1 && spans[i].last == spans[i].opens + spans[i].days - 1
  {
    CutTiles(first, n, start, end, i);
  }

  /** A month's first day and length, and the first and last day of the history inside it. */
  datatype Span = Span(opens: int, days: int, first: int, last: int)

  /** The windows cut the days from `start` to `end` into consecutive, non-empty pieces. */
  ghost predicate Tiles(spans: seq<Span>, start: int, end: int) {
    && spans != [] && spans[0].first == start && spans[|spans| - 1].last == end
    && (forall i :: 0 <= i < |spans| ==>
          spans[i].opens <= spans[i].first <= spans[i].last < spans[i].opens + spans[i].days && spans[i].days <= 31)
    && (forall i :: 0 < i < |spans| ==> spans[i].opens == spans[i].first)
    && (forall i :: 0 <= i < |spans| - 1 ==> spans[i].last == spans[i].opens + spans[i].days - 1)
    && (forall i, k :: 0 <= i < |spans| && k == i + 1 && k < |spans| ==> spans[k].first == spans[i].last + 1)
  }

  lemma {:induction false} TilesAscend(spans: seq<Span>, start: int, end: int, i: nat, j: nat)
    requires Tiles(spans, start, end) && i < j < |spans|
    ensures spans[i].last < spans[j].first
    decreases j
  {
    if i < j - 1 {
      TilesAscend(spans, start, end, i, j - 1);
    }
  }

  /** Every window lies between the start and the end. */
  lemma {:induction false} TilesWithin(spans: seq<Span>, start: int, end: int, i: nat)
    requires Tiles(spans, start, end) && i < |spans|
    ensures start <= spans[i].first && spans[i].last <= end
  {
    if i > 0 {
      TilesAscend(spans, start, end, 0, i);
    }
    if i < |spans| - 1 {
      TilesAscend(spans, start, end, i, |spans| - 1);
    }
  }

  predicate Within(span: Span, day: int) {
    span.first <= day <= span.last
  }

  /** A day falls in one of the windows exactly when it lies between the start and the end, and then in only one. */
  lemma {:induction false} EveryDayInOneWindow(spans: seq<Span>, start: int, end: int, day: int)
    requires Tiles(spans, start, end)
    ensures (exists i :: 0 <= i < |spans| && Within(spans[i], day)) <==> start <= day <= end
    ensures forall i, j :: 0 <= i < |spans| && 0 <= j < |spans| && Within(spans[i], day) && Within(spans[j], day) ==>
              i == j
  {
    if start <= day <= end {
      var i := WindowAt(spans, start, end, |spans| - 1, day);
    }
    forall i | 0 <= i < |spans| && Within(spans[i], day) ensures start <= day <= end {
      TilesWithin(spans, start, end, i);
    }
    forall i, j | 0 <= i < j < |spans| ensures !(Within(spans[i], day) && Within(spans[j], day)) {
      TilesAscend(spans, start, end, i, j);
    }
  }

  lemma {:induction false} WindowAt(spans: seq<Span>, start: int, end: int, n: nat, day: int) returns (i: nat)
    requires Tiles(spans, start, end) && n < |spans| && start <= day <= spans[n].last
    ensures i <= n && Within(spans[i], day)
  {
    if spans[n].first <= day {
      i := n;
    } else {
      i := WindowAt(spans, start, end, n - 1, day);
    }
  }
}
