/** One month of the book: who enters, who closes, and what each account does. */
module Months {
  import opened Rows
  import opened Calendar
  import opened Deposits
  import opened Emission

  // ---------------------------------------------------------------- entering the active set

  /** The month an account enters in: the last one that opens on or before the account does, or the first. */
  function EntryMonth(spans: seq<Span>, day: int): (index: nat)
    requires spans != []
    ensures index < |spans|
    ensures index > 0 ==> spans[index].opens <= day
  {
    if |spans| == 1 then 0
    else if spans[|spans| - 1].opens <= day then |spans| - 1
    else EntryMonth(spans[..|spans| - 1], day)
  }

  lemma {:induction false} EntryMonthIs(spans: seq<Span>, day: int, index: nat)
    requires index < |spans|
    requires index > 0 ==> spans[index].opens <= day
    requires forall k :: index < k < |spans| ==> day < spans[k].opens
    ensures EntryMonth(spans, day) == index
    decreases |spans|
  {
    if index < |spans| - 1 {
      EntryMonthIs(spans[..|spans| - 1], day, index);
    }
  }

  function Flat(buckets: seq<seq<nat>>): seq<nat> {
    if buckets == [] then [] else Flat(buckets[..|buckets| - 1]) + buckets[|buckets| - 1]
  }

  function Filed(buckets: seq<seq<nat>>, m: nat, id: nat): seq<seq<nat>>
    requires m < |buckets|
  {
    buckets[m := buckets[m] + [id]]
  }

  lemma {:induction false} FlatGains(buckets: seq<seq<nat>>, m: nat, id: nat)
    requires m < |buckets|
    ensures multiset(Flat(Filed(buckets, m, id))) == multiset(Flat(buckets)) + multiset([id])
    decreases |buckets|
  {
    var last := |buckets| - 1;
    var grown := Filed(buckets, m, id);
    if m == last {
      assert grown[..last] == buckets[..last];
    } else {
      FlatGains(buckets[..last], m, id);
      assert grown[..last] == Filed(buckets[..last], m, id);
    }
  }

  function NoBuckets(n: nat): seq<seq<nat>> {
    seq(n, _ => [])
  }

  lemma {:induction false} FlatEmpty(n: nat)
    ensures Flat(NoBuckets(n)) == []
  {
    if n > 0 {
      FlatEmpty(n - 1);
      assert NoBuckets(n)[..n - 1] == NoBuckets(n - 1);
    }
  }

  function Ids(n: nat): seq<nat> {
    seq(n, i => i + 1)
  }

  lemma {:induction false} IdsStep(n: nat)
    ensures multiset(Ids(n + 1)) == multiset(Ids(n)) + multiset([n + 1])
  {
    assert Ids(n + 1) == Ids(n) + [n + 1];
  }

  ghost predicate Distinct(ids: seq<nat>) {
    forall i, j :: 0 <= i < j < |ids| ==> ids[i] != ids[j]
  }

  /** Scans the months forward, keeping the last that opens on or before the day. */
  method FindMonth(spans: seq<Span>, day: int) returns (index: nat)
    requires spans != []
    requires forall i, k :: 0 <= i < k < |spans| ==> spans[i].opens < spans[k].opens
    ensures index == EntryMonth(spans, day)
  {
    index := 0;
    for position := 0 to |spans|
      invariant index < |spans| && (position > 0 ==> index == position - 1) && (position == 0 ==> index == 0)
      invariant position > 0 ==> spans[index].opens <= day
    {
      if spans[position].opens > day {
        break;
      }
      index := position;
    }
    EntryMonthIs(spans, day, index);
  }

  /** Every id filed so far lies in the month its account enters in. */
  ghost predicate FiledRight(buckets: seq<seq<nat>>, openedOn: seq<int>, spans: seq<Span>, upTo: nat)
    requires spans != [] && upTo <= |openedOn|
  {
    forall m, k :: 0 <= m < |buckets| && 0 <= k < |buckets[m]| ==>
      1 <= buckets[m][k] <= upTo && EntryMonth(spans, openedOn[buckets[m][k] - 1]) == m
  }

  lemma {:induction false} FilingKeepsRight(
    buckets: seq<seq<nat>>, openedOn: seq<int>, spans: seq<Span>, i: nat, index: nat)
    requires spans != [] && i < |openedOn| && index < |buckets| && FiledRight(buckets, openedOn, spans, i)
    requires index == EntryMonth(spans, openedOn[i])
    ensures FiledRight(Filed(buckets, index, i + 1), openedOn, spans, i + 1)
  {
  }

  /** The first `n` accounts, each filed under its entry month. */
  function Buckets(openedOn: seq<int>, spans: seq<Span>, n: nat): (buckets: seq<seq<nat>>)
    requires spans != [] && n <= |openedOn|
    ensures |buckets| == |spans|
  {
    if n == 0 then NoBuckets(|spans|) else Filed(Buckets(openedOn, spans, n - 1), EntryMonth(spans, openedOn[n - 1]), n)
  }

  /** Each id is filed once. */
  lemma {:induction false} BucketsHoldEveryId(openedOn: seq<int>, spans: seq<Span>, n: nat)
    requires spans != [] && n <= |openedOn|
    ensures multiset(Flat(Buckets(openedOn, spans, n))) == multiset(Ids(n))
  {
    if n == 0 {
      FlatEmpty(|spans|);
    } else {
      BucketsHoldEveryId(openedOn, spans, n - 1);
      FlatGains(Buckets(openedOn, spans, n - 1), EntryMonth(spans, openedOn[n - 1]), n);
      IdsStep(n - 1);
    }
  }

  /** And in the month its account enters in. */
  lemma {:induction false} BucketsFileRight(openedOn: seq<int>, spans: seq<Span>, n: nat)
    requires spans != [] && n <= |openedOn|
    ensures FiledRight(Buckets(openedOn, spans, n), openedOn, spans, n)
  {
    if n > 0 {
      BucketsFileRight(openedOn, spans, n - 1);
      FilingKeepsRight(Buckets(openedOn, spans, n - 1), openedOn, spans, n - 1, EntryMonth(spans, openedOn[n - 1]));
    }
  }

  lemma {:induction false} AccountIsFiled(openedOn: seq<int>, spans: seq<Span>, n: nat, id: nat)
    requires spans != [] && 1 <= id <= n <= |openedOn|
    ensures id in Buckets(openedOn, spans, n)[EntryMonth(spans, openedOn[id - 1])]
  {
    var before, index := Buckets(openedOn, spans, n - 1), EntryMonth(spans, openedOn[n - 1]);
    if id == n {
      assert Filed(before, index, n)[index][|before[index]|] == id;
    } else {
      AccountIsFiled(openedOn, spans, n - 1, id);
    }
  }

  /** Files every account under its entry month. */
  method OpeningBuckets(openedOn: seq<int>, spans: seq<Span>) returns (buckets: seq<seq<nat>>)
    requires spans != []
    requires forall i, k :: 0 <= i < k < |spans| ==> spans[i].opens < spans[k].opens
    ensures buckets == Buckets(openedOn, spans, |openedOn|)
    ensures |buckets| == |spans| && multiset(Flat(buckets)) == multiset(Ids(|openedOn|))
    ensures FiledRight(buckets, openedOn, spans, |openedOn|)
  {
    buckets := NoBuckets(|spans|);
    for i := 0 to |openedOn|
      invariant |buckets| == |spans| && buckets == Buckets(openedOn, spans, i)
    {
      var index := FindMonth(spans, openedOn[i]);
      buckets := Filed(buckets, index, i + 1);
    }
    BucketsHoldEveryId(openedOn, spans, |openedOn|);
    BucketsFileRight(openedOn, spans, |openedOn|);
  }

  /** An account's opening day falls no later than the last day of the month it enters in, or of any later one. */
  lemma {:induction false} EntryMonthBound(spans: seq<Span>, start: int, end: int, day: int, m: nat)
    requires Tiles(spans, start, end) && day <= end && EntryMonth(spans, day) <= m < |spans|
    ensures day <= spans[m].last
  {
    EntryMonthIsLast(spans, start, end, day);
    var entry := EntryMonth(spans, day);
    if entry < m {
      TilesAscend(spans, start, end, entry, m);
    }
  }

  lemma {:induction false} EntryMonthIsLast(spans: seq<Span>, start: int, end: int, day: int)
    requires Tiles(spans, start, end)
    ensures var entry := EntryMonth(spans, day); entry + 1 < |spans| ==> day < spans[entry + 1].opens
    decreases |spans|
  {
    var last := |spans| - 1;
    if last > 0 && spans[last].opens > day {
      assert spans[..last][last - 1] == spans[last - 1];
      EntryMonthIsLast(spans[..last], start, spans[last - 1].last, day);
    }
  }

  lemma {:induction false} FlatPrefix(buckets: seq<seq<nat>>, k: nat)
    requires k <= |buckets|
    ensures multiset(Flat(buckets[..k])) <= multiset(Flat(buckets))
    decreases |buckets|
  {
    if k == |buckets| {
      assert buckets[..k] == buckets;
    } else {
      FlatPrefix(buckets[..|buckets| - 1], k);
      assert buckets[..|buckets| - 1][..k] == buckets[..k];
    }
  }

  lemma {:induction false} FlatNext(buckets: seq<seq<nat>>, k: nat)
    requires k < |buckets|
    ensures multiset(Flat(buckets[..k + 1])) == multiset(Flat(buckets[..k])) + multiset(buckets[k])
  {
    assert buckets[..k + 1][..k] == buckets[..k];
  }

  lemma {:induction false} IdsOnce(n: nat, id: nat)
    ensures multiset(Ids(n))[id] == if 1 <= id <= n then 1 else 0
  {
    if n > 0 {
      IdsOnce(n - 1, id);
      IdsStep(n - 1);
    }
  }

  /** A list drawn from the ids without repetition is distinct and in range. */
  lemma {:induction false} DistinctFromIds(ids: seq<nat>, n: nat)
    requires multiset(ids) <= multiset(Ids(n))
    ensures Distinct(ids) && forall i :: 0 <= i < |ids| ==> 1 <= ids[i] <= n
  {
    forall i | 0 <= i < |ids| ensures 1 <= ids[i] <= n {
      assert ids[i] in multiset(ids);
      IdsOnce(n, ids[i]);
    }
    forall i, j | 0 <= i < j < |ids| ensures ids[i] != ids[j] {
      if ids[i] == ids[j] {
        assert ids == ids[..i] + [ids[i]] + ids[i + 1..j] + [ids[j]] + ids[j + 1..];
        assert multiset(ids)[ids[i]] >= 2;
        IdsOnce(n, ids[i]);
      }
    }
  }

  // ---------------------------------------------------------------- attrition

  datatype LifecycleDraw = LifecycleDraw(
    becomesDormant: bool, reactivates: bool, freezes: bool, closes: bool, closeOffset: nat)

  /** Whether an account is live, dormant, frozen or closed, and since when it is closed. */
  datatype Life = Life(status: AccountStatus, closedOn: Option<int>)

  datatype Standing = Standing(life: Life, updatedAt: int)

  /** Dormancy, reactivation and freezing. */
  function Aged(status: AccountStatus, d: LifecycleDraw): AccountStatus {
    if status == Active && d.becomesDormant then Dormant
    else if status == Dormant && d.reactivates then Active
    else if status == Active && d.freezes then Frozen
    else status
  }

  /** Dormancy, reactivation, freezing and closure for one account in one month. */
  function Decide(l: Life, openDay: int, hold: Option<int>, d: LifecycleDraw, first: int, last: int): (r: Life)
    requires first <= last
    ensures l.closedOn.Some? ==> r == l
    ensures r.closedOn != l.closedOn ==> r.status == Closed && MayClose(r.closedOn, openDay, hold, first, last)
  {
    if l.closedOn.Some? then l
    else
      var status := Aged(l.status, d);
      var closeDay := first + d.closeOffset % (last - first + 1);
      if !d.closes || (hold.Some? && closeDay <= hold.value) || closeDay < openDay + 30 then l.(status := status)
      else Life(Closed, Some(closeDay))
  }

  /** The same with the account's timestamp, which a closure moves to the afternoon of its day. */
  function Attrite(s: Standing, openDay: int, hold: Option<int>, d: LifecycleDraw, first: int, last: int): (r: Standing)
    requires first <= last
    ensures s.updatedAt <= r.updatedAt
  {
    var life := Decide(s.life, openDay, hold, d, first, last);
    Standing(life, if life.closedOn == s.life.closedOn then s.updatedAt
                   else Later(s.updatedAt, life.closedOn.value * DAY + 16 * 3600))
  }

  /** A closure decided in a window: after the last loan day and not within thirty days of opening. */
  predicate MayClose(closedOn: Option<int>, openDay: int, hold: Option<int>, first: int, last: int) {
    && closedOn.Some? && first <= closedOn.value <= last && openDay + 30 <= closedOn.value
    && (hold.Some? ==> hold.value < closedOn.value)
  }

  /** The day of the month a closure is drawn for. */
  function DrawnClosure(d: LifecycleDraw, first: int, last: int): (day: int)
    requires first <= last
    ensures first <= day <= last
  {
    first + d.closeOffset % (last - first + 1)
  }

  /** Any day of the window can be drawn. */
  lemma {:induction false} AnyDayCanBeDrawn(d: LifecycleDraw, first: int, last: int, day: int)
    requires first <= day <= last
    ensures DrawnClosure(d.(closeOffset := day - first), first, last) == day
  {
  }

  /** The month's draws close an account: one is drawn, after its last loan day and thirty days or more from its
      opening. */
  predicate ClosesIn(openDay: int, hold: Option<int>, d: LifecycleDraw, first: int, last: int)
    requires first <= last
  {
    var day := DrawnClosure(d, first, last);
    d.closes && openDay + 30 <= day && (hold.Some? ==> hold.value < day)
  }

  /** What a month makes of an open account, status by status: closed exactly when its draws close it, and else active
      exactly when it was and is neither put to sleep nor frozen or was dormant and is woken, dormant exactly when it
      was active and is put to sleep or was dormant and is not woken, frozen exactly when it was or is, being awake. */
  lemma {:induction false} MonthDecides(
    l: Life, openDay: int, hold: Option<int>, d: LifecycleDraw, first: int, last: int)
    requires first <= last && l.closedOn.None? && l.status != Closed
    ensures var r, closes := Decide(l, openDay, hold, d, first, last), ClosesIn(openDay, hold, d, first, last);
            && r.closedOn == (if closes then Some(DrawnClosure(d, first, last)) else None)
            && (r.status == Closed <==> closes)
            && (!closes ==>
                  && (r.status == Active <==>
                        (l.status == Active && !d.becomesDormant && !d.freezes)
                        || (l.status == Dormant && d.reactivates))
                  && (r.status == Dormant <==>
                        (l.status == Active && d.becomesDormant) || (l.status == Dormant && !d.reactivates))
                  && (r.status == Frozen <==>
                        l.status == Frozen || (l.status == Active && d.freezes && !d.becomesDormant)))
  {
  }

  /** A closure is stamped at four in the afternoon of its day, unless the account moved later; nothing else is. */
  lemma {:induction false} ClosureIsStamped(
    s: Standing, openDay: int, hold: Option<int>, d: LifecycleDraw, first: int, last: int)
    requires first <= last && s.life.closedOn.None?
    ensures var closedAt := DrawnClosure(d, first, last) * DAY + 16 * 3600;
            Attrite(s, openDay, hold, d, first, last).updatedAt
            == if ClosesIn(openDay, hold, d, first, last) && closedAt > s.updatedAt then closedAt else s.updatedAt
  {
  }

  function HoldOf(holdUntil: map<nat, int>, accountId: nat): Option<int> {
    if accountId in holdUntil then Some(holdUntil[accountId]) else None
  }

  function StandingOf(accounts: AccountBook, i: nat): Standing
    requires accounts.Valid() && i < |accounts.openedOn|
    reads accounts
  {
    Standing(Life(accounts.status[i], accounts.closedOn[i]), accounts.updatedAt[i])
  }

  method AgeAccount(accounts: AccountBook, index: nat, d: LifecycleDraw)
    requires accounts.Valid() && index < |accounts.openedOn|
    modifies accounts`status
    ensures accounts.status == old(accounts.status)[index := Aged(old(accounts.status)[index], d)]
  {
    if accounts.status[index] == Active && d.becomesDormant {
      accounts.status := accounts.status[index := Dormant];
    } else if accounts.status[index] == Dormant && d.reactivates {
      accounts.status := accounts.status[index := Active];
    } else if accounts.status[index] == Active && d.freezes {
      accounts.status := accounts.status[index := Frozen];
    }
  }

  method CloseAccount(accounts: AccountBook, index: nat, closeDay: int)
    requires accounts.Valid() && index < |accounts.openedOn|
    modifies accounts`status, accounts`closedOn, accounts`updatedAt
    ensures accounts.status == old(accounts.status)[index := Closed]
    ensures accounts.closedOn == old(accounts.closedOn)[index := Some(closeDay)]
    ensures accounts.updatedAt
            == old(accounts.updatedAt)[index := Later(old(accounts.updatedAt)[index], closeDay * DAY + 16 * 3600)]
  {
    accounts.closedOn := accounts.closedOn[index := Some(closeDay)];
    accounts.status := accounts.status[index := Closed];
    accounts.updatedAt := accounts.updatedAt[index := Later(accounts.updatedAt[index], closeDay * DAY + 16 * 3600)];
  }

  /** Decides one account's month. */
  method AttriteAccount(
    accounts: AccountBook, index: nat, first: int, last: int, d: LifecycleDraw, hold: Option<int>)
    requires accounts.Valid() && index < |accounts.openedOn| && first <= last
    modifies accounts`status, accounts`closedOn, accounts`updatedAt
    ensures accounts.Valid()
    ensures StandingOf(accounts, index) ==
            Attrite(old(StandingOf(accounts, index)), accounts.openedOn[index], hold, d, first, last)
    ensures forall i :: 0 <= i < |accounts.openedOn| && i != index ==>
              StandingOf(accounts, i) == old(StandingOf(accounts, i))
  {
    if accounts.closedOn[index].Some? {
      return;
    }
    AgeAccount(accounts, index, d);
    if d.closes {
      var closeDay := first + d.closeOffset % (last - first + 1);
      if hold.Some? && closeDay <= hold.value {
        return;
      }
      if closeDay >= accounts.openedOn[index] + 30 {
        CloseAccount(accounts, index, closeDay);
      }
    }
  }

  /** Decides the month's attrition for the active accounts; no other account changes. */
  method MonthAttrition(
    accounts: AccountBook, active: seq<nat>, month: nat, first: int, last: int,
    lifecycle: (nat, nat) -> LifecycleDraw, holdUntil: map<nat, int>)
    requires accounts.Valid() && Distinct(active) && first <= last
    requires forall i :: 0 <= i < |active| ==> 1 <= active[i] <= |accounts.openedOn|
    modifies accounts`status, accounts`closedOn, accounts`updatedAt
    ensures accounts.Valid()
    ensures forall i :: 0 <= i < |accounts.openedOn| ==>
              StandingOf(accounts, i) ==
              if i + 1 in active
              then Attrite(old(StandingOf(accounts, i)), accounts.openedOn[i], HoldOf(holdUntil, i + 1),
                           lifecycle(i + 1, month), first, last)
              else old(StandingOf(accounts, i))
  {
    for n := 0 to |active|
      invariant accounts.Valid()
      invariant forall i :: 0 <= i < |accounts.openedOn| ==>
                  StandingOf(accounts, i) ==
                  if i + 1 in active[..n]
                  then Attrite(old(StandingOf(accounts, i)), accounts.openedOn[i], HoldOf(holdUntil, i + 1),
                               lifecycle(i + 1, month), first, last)
                  else old(StandingOf(accounts, i))
    {
      assert active[n] !in active[..n];
      assert active[..n + 1] == active[..n] + [active[n]];
      AttriteAccount(accounts, active[n] - 1, first, last, lifecycle(active[n], month), HoldOf(holdUntil, active[n]));
    }
    assert active[..|active|] == active;
  }
}
