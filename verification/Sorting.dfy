/** The ordering the source's sorts use: a key of up to three integers, compared field by field; ties keep the order
    they arrive in. */
module Sorting {

  datatype Key = Key(first: int, second: int, third: int)

  predicate AtMost(a: Key, b: Key) {
    a.first < b.first || (a.first == b.first && (a.second < b.second || (a.second == b.second && a.third <= b.third)))
  }

  ghost predicate Ascending<T>(items: seq<T>, key: T -> Key) {
    forall i, j :: 0 <= i < j < |items| ==> AtMost(key(items[i]), key(items[j]))
  }

  /** Where a new item goes: after everything that sorts at or before it, which keeps ties in arrival order. */
  function Place<T>(items: seq<T>, item: T, key: T -> Key): (at: nat)
    ensures at <= |items|
    ensures at > 0 ==> AtMost(key(items[at - 1]), key(item))
    ensures forall i :: at <= i < |items| ==> !AtMost(key(items[i]), key(item))
  {
    var last := |items| - 1;
    if items == [] || AtMost(key(items[last]), key(item)) then |items| else Place(items[..last], item, key)
  }

  function Inserted<T>(items: seq<T>, item: T, key: T -> Key): seq<T> {
    var at := Place(items, item, key);
    items[..at] + [item] + items[at..]
  }

  /** The stable sort. */
  function SortedBy<T>(items: seq<T>, key: T -> Key): seq<T> {
    if items == [] then [] else Inserted(SortedBy(items[..|items| - 1], key), items[|items| - 1], key)
  }

  lemma {:induction false} InsertedKeepsOrder<T>(items: seq<T>, item: T, key: T -> Key)
    requires Ascending(items, key)
    ensures Ascending(Inserted(items, item, key), key)
  {
    var at, out := Place(items, item, key), Inserted(items, item, key);
    forall i, j | 0 <= i < j < |out| ensures AtMost(key(out[i]), key(out[j])) {
      var a, b := if i > at then i - 1 else i, if j > at then j - 1 else j;
      assert i != at ==> out[i] == items[a];
      assert j != at ==> out[j] == items[b];
      if j == at && i < at - 1 {
        assert AtMost(key(items[i]), key(items[at - 1]));
      }
    }
  }

  lemma {:induction false} InsertedHolds<T>(items: seq<T>, item: T, key: T -> Key)
    ensures multiset(Inserted(items, item, key)) == multiset(items) + multiset{item}
  {
    var at := Place(items, item, key);
    assert items == items[..at] + items[at..];
  }

  /** A sort keeps what it was given and puts it in order. */
  lemma {:induction false} SortedByOrders<T>(items: seq<T>, key: T -> Key)
    ensures multiset(SortedBy(items, key)) == multiset(items) && Ascending(SortedBy(items, key), key)
  {
    if items != [] {
      var front, last := items[..|items| - 1], items[|items| - 1];
      SortedByOrders(front, key);
      InsertedKeepsOrder(SortedBy(front, key), last, key);
      InsertedHolds(SortedBy(front, key), last, key);
      assert items == front + [last];
    }
  }

  /** The items with one key, in the order they stand. */
  function Ties<T>(items: seq<T>, key: T -> Key, k: Key): seq<T> {
    if items == [] then []
    else
      var front, last := items[..|items| - 1], items[|items| - 1];
      Ties(front, key, k) + if key(last) == k then [last] else []
  }

  lemma {:induction false} TiesConcat<T>(one: seq<T>, two: seq<T>, key: T -> Key, k: Key)
    ensures Ties(one + two, key, k) == Ties(one, key, k) + Ties(two, key, k)
  {
    if two == [] {
      assert one + two == one;
    } else {
      TiesConcat(one, two[..|two| - 1], key, k);
      assert (one + two)[..|one + two| - 1] == one + two[..|two| - 1];
    }
  }

  lemma {:induction false} NoTies<T>(items: seq<T>, key: T -> Key, k: Key)
    requires forall i :: 0 <= i < |items| ==> key(items[i]) != k
    ensures Ties(items, key, k) == []
  {
    if items != [] {
      NoTies(items[..|items| - 1], key, k);
    }
  }

  lemma {:induction false} TiesAround<T>(before: seq<T>, item: T, after: seq<T>, key: T -> Key, k: Key)
    requires forall i :: 0 <= i < |after| ==> key(after[i]) != key(item)
    ensures Ties(before + [item] + after, key, k)
            == Ties(before + after, key, k) + if key(item) == k then [item] else []
  {
    TiesConcat(before, after, key, k);
    TiesConcat(before + [item], after, key, k);
    LastOfTies(before + [item], key, k);
    assert (before + [item])[..|before|] == before;
    if key(item) == k {
      NoTies(after, key, k);
    }
  }

  lemma {:induction false} InsertedTies<T>(items: seq<T>, item: T, key: T -> Key, k: Key)
    ensures Ties(Inserted(items, item, key), key, k) == Ties(items, key, k) + if key(item) == k then [item] else []
  {
    var at := Place(items, item, key);
    TiesAround(items[..at], item, items[at..], key, k);
    assert items == items[..at] + items[at..];
  }

  /** Items that tie stay in the order they came. */
  lemma {:induction false} SortedByIsStable<T>(items: seq<T>, key: T -> Key, k: Key)
    ensures Ties(SortedBy(items, key), key, k) == Ties(items, key, k)
  {
    if items != [] {
      var front, last := items[..|items| - 1], items[|items| - 1];
      SortedByIsStable(front, key, k);
      InsertedTies(SortedBy(front, key), last, key, k);
    }
  }

  /** For every key, both lists hold the same items in the same order. */
  ghost predicate SameTies<T>(a: seq<T>, b: seq<T>, key: T -> Key) {
    forall k :: Ties(a, key, k) == Ties(b, key, k)
  }

  lemma {:induction false} LastOfTies<T>(items: seq<T>, key: T -> Key, k: Key)
    requires items != []
    ensures var last := items[|items| - 1];
            Ties(items, key, k) == if key(last) == k then Ties(items[..|items| - 1], key, k) + [last]
                                   else Ties(items[..|items| - 1], key, k)
  {
  }

  lemma {:induction false} TiesHold<T>(items: seq<T>, key: T -> Key, k: Key)
    requires Ties(items, key, k) != []
    ensures exists i :: 0 <= i < |items| && key(items[i]) == k
  {
    if forall i :: 0 <= i < |items| ==> key(items[i]) != k {
      NoTies(items, key, k);
    }
  }

  /** The last of an ascending list sorts at or after the last of any list with the same ties. */
  lemma {:induction false} LastIsHighest<T>(a: seq<T>, b: seq<T>, key: T -> Key)
    requires Ascending(b, key) && a != [] && SameTies(a, b, key)
    ensures b != [] && AtMost(key(a[|a| - 1]), key(b[|b| - 1]))
  {
    LastOfTies(a, key, key(a[|a| - 1]));
    TiesHold(b, key, key(a[|a| - 1]));
  }

  /** Order and ties leave no choice: the stable sort is the only ascending list whose ties stand as they came. */
  lemma {:induction false} OneStableOrder<T>(a: seq<T>, b: seq<T>, key: T -> Key)
    requires Ascending(a, key) && Ascending(b, key) && SameTies(a, b, key)
    ensures a == b
  {
    if a == [] {
      if b != [] {
        LastIsHighest(b, a, key);
      }
    } else {
      LastIsHighest(a, b, key);
      LastIsHighest(b, a, key);
      var frontA, frontB, k := a[..|a| - 1], b[..|b| - 1], key(a[|a| - 1]);
      assert key(b[|b| - 1]) == k;
      LastOfTies(a, key, k);
      LastOfTies(b, key, k);
      SameFront(Ties(frontA, key, k), a[|a| - 1], Ties(frontB, key, k), b[|b| - 1]);
      forall other ensures Ties(frontA, key, other) == Ties(frontB, key, other) {
        if other != k {
          LastOfTies(a, key, other);
          LastOfTies(b, key, other);
          assert Ties(frontA, key, other) == Ties(a, key, other) == Ties(b, key, other) == Ties(frontB, key, other);
        }
      }
      OneStableOrder(frontA, frontB, key);
      assert a == frontA + [a[|a| - 1]] && b == frontB + [b[|b| - 1]];
    }
  }

  lemma {:induction false} SameFront<T>(one: seq<T>, x: T, two: seq<T>, y: T)
    requires one + [x] == two + [y]
    ensures one == two && x == y
  {
    assert (one + [x])[..|one|] == one && (two + [y])[..|two|] == two;
    assert (one + [x])[|one|] == x && (two + [y])[|two|] == y;
  }

  /** A list is the stable sort of another exactly when it ascends and its ties stand as they came. */
  lemma {:induction false} StableSortIsUnique<T>(items: seq<T>, out: seq<T>, key: T -> Key)
    ensures out == SortedBy(items, key)
            <==> Ascending(out, key) && SameTies(out, items, key)
  {
    SortedByOrders(items, key);
    forall k ensures Ties(SortedBy(items, key), key, k) == Ties(items, key, k) {
      SortedByIsStable(items, key, k);
    }
    if Ascending(out, key) && SameTies(out, items, key) {
      OneStableOrder(out, SortedBy(items, key), key);
    }
  }

  method InsertionPoint<T>(items: seq<T>, item: T, key: T -> Key) returns (at: nat)
    ensures at == Place(items, item, key)
  {
    at := |items|;
    while at > 0 && !AtMost(key(items[at - 1]), key(item))
      invariant at <= |items| && Place(items, item, key) == Place(items[..at], item, key)
    {
      assert items[..at][..at - 1] == items[..at - 1];
      at := at - 1;
    }
  }

  method Sorted<T>(items: seq<T>, key: T -> Key) returns (out: seq<T>)
    ensures out == SortedBy(items, key)
    ensures multiset(out) == multiset(items) && Ascending(out, key)
  {
    out := [];
    for i := 0 to |items|
      invariant out == SortedBy(items[..i], key)
    {
      assert items[..i + 1][..i] == items[..i];
      var at := InsertionPoint(out, items[i], key);
      out := out[..at] + [items[i]] + out[at..];
    }
    assert items[..|items|] == items;
    SortedByOrders(items, key);
  }

  /** What a sort keeps: a property every item had, every item of the result has. */
  lemma {:induction false} SameMembers<T>(one: seq<T>, other: seq<T>, t: T)
    requires multiset(one) == multiset(other)
    ensures t in one <==> t in other
  {
    assert t in one <==> t in multiset(one);
    assert t in other <==> t in multiset(other);
  }
}
