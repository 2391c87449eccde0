/** Ordering transaction lists by time, most recent first. Both ledger views
    (`sorted { $0.timestamp > $1.timestamp }` in Swift and
    `sort((a, b) => b.timestamp - a.timestamp)` in JavaScript) are modelled by
    one stable insertion sort on a real-valued key. */
module Sorting {

  /** Keys never increase from left to right. */
  ghost predicate NonIncreasing<T>(s: seq<T>, key: T -> real) {
    forall i, j :: 0 <= i < j < |s| ==> key(s[i]) >= key(s[j])
  }

  function MapSeq<T, U>(f: T -> U, s: seq<T>): (r: seq<U>)
    ensures |r| == |s|
    ensures forall i :: 0 <= i < |s| ==> r[i] == f(s[i])
  {
    if s == [] then [] else [f(s[0])] + MapSeq(f, s[1..])
  }

  /** Puts `x` in front of the first element whose key is not larger, so that
      equal keys keep their original order. */
  function Insert<T>(x: T, s: seq<T>, key: T -> real): (r: seq<T>)
    ensures |r| == |s| + 1
  {
    if s == [] then [x]
    else if key(x) >= key(s[0]) then [x] + s
    else [s[0]] + Insert(x, s[1..], key)
  }

  function SortDesc<T>(s: seq<T>, key: T -> real): (r: seq<T>)
    ensures |r| == |s|
  {
    if s == [] then [] else Insert(s[0], SortDesc(s[1..], key), key)
  }

  lemma {:induction false} InsertPermutes<T>(x: T, s: seq<T>, key: T -> real)
    ensures multiset(Insert(x, s, key)) == multiset(s) + multiset{x}
  {
    if s != [] && key(x) < key(s[0]) {
      InsertPermutes(x, s[1..], key);
      assert s == [s[0]] + s[1..];
    }
  }

  lemma {:induction false} InsertKeys<T>(x: T, s: seq<T>, key: T -> real, k: real)
    requires key(x) <= k
    requires forall i :: 0 <= i < |s| ==> key(s[i]) <= k
    ensures forall i :: 0 <= i < |Insert(x, s, key)| ==> key(Insert(x, s, key)[i]) <= k
  {
    if s != [] && key(x) < key(s[0]) {
      InsertKeys(x, s[1..], key, k);
    }
  }

  lemma {:induction false} InsertSorted<T>(x: T, s: seq<T>, key: T -> real)
    requires NonIncreasing(s, key)
    ensures NonIncreasing(Insert(x, s, key), key)
  {
    if s != [] && key(x) < key(s[0]) {
      InsertSorted(x, s[1..], key);
      InsertKeys(x, s[1..], key, key(s[0]));
    }
  }

  /** The sort returns a rearrangement of its input ... */
  lemma {:induction false} SortDescPermutes<T>(s: seq<T>, key: T -> real)
    ensures multiset(SortDesc(s, key)) == multiset(s)
  {
    if s != [] {
      SortDescPermutes(s[1..], key);
      InsertPermutes(s[0], SortDesc(s[1..], key), key);
      assert s == [s[0]] + s[1..];
    }
  }

  /** ... in which the keys never increase. */
  lemma {:induction false} SortDescSorted<T>(s: seq<T>, key: T -> real)
    ensures NonIncreasing(SortDesc(s, key), key)
  {
    if s != [] {
      SortDescSorted(s[1..], key);
      InsertSorted(s[0], SortDesc(s[1..], key), key);
    }
  }

  lemma {:induction false} MapInsert<T, U>(f: T -> U, x: T, s: seq<T>, key: T -> real)
    ensures multiset(MapSeq(f, Insert(x, s, key))) == multiset(MapSeq(f, s)) + multiset{f(x)}
  {
    if s == [] {
    } else if key(x) >= key(s[0]) {
      assert MapSeq(f, [x] + s) == [f(x)] + MapSeq(f, s);
    } else {
      MapInsert(f, x, s[1..], key);
      assert MapSeq(f, [s[0]] + Insert(x, s[1..], key)) == [f(s[0])] + MapSeq(f, Insert(x, s[1..], key));
      assert MapSeq(f, s) == [f(s[0])] + MapSeq(f, s[1..]);
    }
  }

  /** Mapping after sorting yields the same multiset of images as mapping the
      unsorted input. */
  lemma {:induction false} MapSortDesc<T, U>(f: T -> U, s: seq<T>, key: T -> real)
    ensures multiset(MapSeq(f, SortDesc(s, key))) == multiset(MapSeq(f, s))
  {
    if s != [] {
      MapSortDesc(f, s[1..], key);
      MapInsert(f, s[0], SortDesc(s[1..], key), key);
      assert MapSeq(f, s) == [f(s[0])] + MapSeq(f, s[1..]);
    }
  }

  lemma MapSeqConcat<T, U>(f: T -> U, a: seq<T>, b: seq<T>)
    ensures MapSeq(f, a + b) == MapSeq(f, a) + MapSeq(f, b)
  {
    assert forall i :: 0 <= i < |a + b| ==> MapSeq(f, a + b)[i] == (MapSeq(f, a) + MapSeq(f, b))[i];
  }

  lemma MapSeqLast<T, U>(f: T -> U, s: seq<T>)
    requires s != []
    ensures MapSeq(f, s[..|s| - 1]) == MapSeq(f, s)[..|s| - 1]
    ensures MapSeq(f, s)[|s| - 1] == f(s[|s| - 1])
  {
    var n := |s|;
    var m := MapSeq(f, s);
    var init := MapSeq(f, s[..n - 1]);
    assert |init| == |m[..n - 1]|;
    forall i | 0 <= i < n - 1 ensures init[i] == m[..n - 1][i] {
      assert s[..n - 1][i] == s[i];
    }
    assert init == m[..n - 1];
  }

  /** Mapping commutes with insertion when the map keeps the key. */
  lemma {:induction false} MapInsertCommutes<T, U>(f: T -> U, x: T, s: seq<T>, k: T -> real, j: U -> real)
    requires forall y :: j(f(y)) == k(y)
    ensures MapSeq(f, Insert(x, s, k)) == Insert(f(x), MapSeq(f, s), j)
  {
    if s != [] {
      var fs := MapSeq(f, s);
      assert fs[0] == f(s[0]);
      if k(x) >= k(s[0]) {
        MapSeqConcat(f, [x], s);
      } else {
        MapInsertCommutes(f, x, s[1..], k, j);
        MapSeqConcat(f, [s[0]], Insert(x, s[1..], k));
        assert fs[1..] == MapSeq(f, s[1..]);
      }
    }
  }

  /** Mapping commutes with the sort when the map keeps the key: sorting the
      images gives the images of the sorted input, in the same order. */
  lemma {:induction false} MapSortCommutes<T, U>(f: T -> U, s: seq<T>, k: T -> real, j: U -> real)
    requires forall y :: j(f(y)) == k(y)
    ensures MapSeq(f, SortDesc(s, k)) == SortDesc(MapSeq(f, s), j)
  {
    if s != [] {
      MapSortCommutes(f, s[1..], k, j);
      MapInsertCommutes(f, s[0], SortDesc(s[1..], k), k, j);
      assert MapSeq(f, s)[1..] == MapSeq(f, s[1..]);
    }
  }

  /** The sort is stable: input that is already newest first comes back
      unchanged, ties included. */
  lemma {:induction false} SortDescOfSorted<T>(s: seq<T>, key: T -> real)
    requires NonIncreasing(s, key)
    ensures SortDesc(s, key) == s
  {
    if s != [] {
      assert NonIncreasing(s[1..], key);
      SortDescOfSorted(s[1..], key);
      assert s == [s[0]] + s[1..];
    }
  }
}
