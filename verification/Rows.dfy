/** Shapes every component shares: optional values, refusals, and sums over recorded rows. */
module Rows {

  datatype Option<+T> = None | Some(value: T) {
    function GetOr(default: T): T {
      if Some? then value else default
    }
  }

  /** What a call gives back when the source may raise instead of returning. */
  datatype Result<+T> = Ok(value: T) | Refused(reason: string)

  /** The signed sum of `weight` over the rows, the model of `select sum(...)`. */
  function Sum<T>(rows: seq<T>, weight: T -> int): int {
    if rows == [] then 0 else Sum(rows[..|rows| - 1], weight) + weight(rows[|rows| - 1])
  }

  lemma {:induction false} SumAppend<T>(rows: seq<T>, row: T, weight: T -> int)
    ensures Sum(rows + [row], weight) == Sum(rows, weight) + weight(row)
  {
    assert (rows + [row])[..|rows|] == rows;
  }

  lemma {:induction false} SumConcat<T>(left: seq<T>, right: seq<T>, weight: T -> int)
    ensures Sum(left + right, weight) == Sum(left, weight) + Sum(right, weight)
  {
    if right == [] {
      assert left + right == left;
    } else {
      var front, last := right[..|right| - 1], right[|right| - 1];
      SumConcat(left, front, weight);
      assert left + right == (left + front) + [last];
      SumAppend(left + front, last, weight);
    }
  }

  /** Two weights that agree on every row give the same sum. */
  lemma {:induction false} SumAgrees<T>(rows: seq<T>, one: T -> int, other: T -> int)
    requires forall i :: 0 <= i < |rows| ==> one(rows[i]) == other(rows[i])
    ensures Sum(rows, one) == Sum(rows, other)
  {
    if rows != [] {
      SumAgrees(rows[..|rows| - 1], one, other);
    }
  }

  lemma {:induction false} SumZero<T>(rows: seq<T>, weight: T -> int)
    requires forall i :: 0 <= i < |rows| ==> weight(rows[i]) == 0
    ensures Sum(rows, weight) == 0
  {
    if rows != [] {
      SumZero(rows[..|rows| - 1], weight);
    }
  }

  /** The rows `keep` holds of, in the order they stand. */
  function Kept<T>(rows: seq<T>, keep: T -> bool): seq<T> {
    if rows == [] then []
    else
      var front, last := rows[..|rows| - 1], rows[|rows| - 1];
      Kept(front, keep) + if keep(last) then [last] else []
  }

  lemma {:induction false} KeptHolds<T(!new)>(rows: seq<T>, keep: T -> bool)
    ensures forall row :: row in Kept(rows, keep) <==> row in rows && keep(row)
  {
    if rows != [] {
      var front, last := rows[..|rows| - 1], rows[|rows| - 1];
      assert rows == front + [last];
      KeptHolds(front, keep);
    }
  }

  lemma {:induction false} KeptAppend<T>(rows: seq<T>, row: T, keep: T -> bool)
    ensures Kept(rows + [row], keep) == if keep(row) then Kept(rows, keep) + [row] else Kept(rows, keep)
  {
    assert (rows + [row])[..|rows|] == rows;
  }

  lemma {:induction false} KeptConcat<T>(left: seq<T>, right: seq<T>, keep: T -> bool)
    ensures Kept(left + right, keep) == Kept(left, keep) + Kept(right, keep)
  {
    if right == [] {
      assert left + right == left;
    } else {
      var front, last := right[..|right| - 1], right[|right| - 1];
      KeptConcat(left, front, keep);
      assert right == front + [last] && left + right == (left + front) + [last];
      KeptAppend(left + front, last, keep);
      KeptAppend(front, last, keep);
      if keep(last) {
        assert (Kept(left, keep) + Kept(front, keep)) + [last] == Kept(left, keep) + (Kept(front, keep) + [last]);
      }
    }
  }

  lemma {:induction false} KeptAgrees<T(!new)>(rows: seq<T>, one: T -> bool, other: T -> bool)
    requires forall row :: row in rows ==> one(row) == other(row)
    ensures Kept(rows, one) == Kept(rows, other)
  {
    if rows != [] {
      var front, last := rows[..|rows| - 1], rows[|rows| - 1];
      assert rows == front + [last];
      KeptAgrees(front, one, other);
    }
  }

  lemma {:induction false} KeptOne<T>(row: T, keep: T -> bool)
    ensures Kept([row], keep) == if keep(row) then [row] else []
  {
    assert [row][..0] == [];
  }

  lemma {:induction false} KeptAll<T(!new)>(rows: seq<T>, keep: T -> bool)
    requires forall row :: row in rows ==> keep(row)
    ensures Kept(rows, keep) == rows
  {
    if rows != [] {
      var front, last := rows[..|rows| - 1], rows[|rows| - 1];
      assert rows == front + [last];
      KeptAll(front, keep);
    }
  }

  lemma {:induction false} KeptNone<T(!new)>(rows: seq<T>, keep: T -> bool)
    requires forall row :: row in rows ==> !keep(row)
    ensures Kept(rows, keep) == []
  {
    if rows != [] {
      var front, last := rows[..|rows| - 1], rows[|rows| - 1];
      assert rows == front + [last];
      KeptNone(front, keep);
    }
  }

  /** It makes no difference which of two choices is made first. */
  lemma {:induction false} KeptTwice<T>(rows: seq<T>, one: T -> bool, other: T -> bool)
    ensures Kept(Kept(rows, one), other) == Kept(Kept(rows, other), one)
  {
    if rows != [] {
      var front, last := rows[..|rows| - 1], rows[|rows| - 1];
      assert rows == front + [last];
      KeptTwice(front, one, other);
      KeptNext(front, last, one, other);
      KeptNext(front, last, other, one);
    }
  }

  lemma {:induction false} KeptNext<T>(front: seq<T>, last: T, one: T -> bool, other: T -> bool)
    ensures Kept(Kept(front + [last], one), other)
         == Kept(Kept(front, one), other) + if one(last) && other(last) then [last] else []
  {
    KeptAppend(front, last, one);
    if one(last) {
      KeptAppend(Kept(front, one), last, other);
    }
  }

  /** A sum does not depend on the order of what is summed. */
  lemma {:induction false} SumIgnoresOrder<T>(a: seq<T>, b: seq<T>, weight: T -> int)
    requires multiset(a) == multiset(b)
    ensures Sum(a, weight) == Sum(b, weight)
    decreases |a|
  {
    if a == [] {
      assert |multiset(b)| == |b|;
    } else {
      var n := |a| - 1;
      assert a[n] in multiset(a) && a[n] in b;
      var k :| 0 <= k < |b| && b[k] == a[n];
      WithoutOne(a, n);
      WithoutOne(b, k);
      assert a[..n] + a[n + 1..] == a[..n];
      SumIgnoresOrder(a[..n], b[..k] + b[k + 1..], weight);
      SumWithout(b, k, weight);
    }
  }

  lemma {:induction false} WithoutOne<T>(s: seq<T>, k: nat)
    requires k < |s|
    ensures multiset(s[..k] + s[k + 1..]) == multiset(s) - multiset{s[k]}
  {
    assert s == s[..k] + [s[k]] + s[k + 1..];
  }

  lemma {:induction false} SumWithout<T>(s: seq<T>, k: nat, weight: T -> int)
    requires k < |s|
    ensures Sum(s, weight) == Sum(s[..k] + s[k + 1..], weight) + weight(s[k])
  {
    assert s == s[..k] + [s[k]] + s[k + 1..];
    SumConcat(s[..k], s[k + 1..], weight);
    SumConcat(s[..k] + [s[k]], s[k + 1..], weight);
    SumAppend(s[..k], s[k], weight);
  }

  lemma {:induction false} Regroup<T>(first: seq<T>, second: seq<T>, third: seq<T>)
    ensures first + (second + third) == (first + second) + third
  {
  }
}
