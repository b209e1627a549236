/** Python's `sorted(xs, key=...)` on integer keys: an ordering by key that keeps elements with
    equal keys in their input order. Defined as insertion sort and characterised by three
    lemmas: the result is ordered, it is a permutation, and it is stable. */
module StableSort {

  ghost predicate SortedBy<T>(s: seq<T>, key: T -> int) {
    forall i, j :: 0 <= i < j < |s| ==> key(s[i]) <= key(s[j])
  }

  /** Places `x` before the first element whose key is not smaller. */
  function Insert<T>(x: T, s: seq<T>, key: T -> int): (r: seq<T>)
    ensures |r| == |s| + 1
  {
    if s == [] || key(x) <= key(s[0]) then [x] + s else [s[0]] + Insert(x, s[1..], key)
  }

  function SortBy<T>(s: seq<T>, key: T -> int): seq<T> {
    if s == [] then [] else Insert(s[0], SortBy(s[1..], key), key)
  }

  /** The elements of `s` whose key is `k`, in order. */
  function WithKey<T>(s: seq<T>, key: T -> int, k: int): seq<T> {
    if s == [] then [] else (if key(s[0]) == k then [s[0]] else []) + WithKey(s[1..], key, k)
  }

  lemma {:induction false} InsertPermutes<T>(x: T, s: seq<T>, key: T -> int)
    ensures multiset(Insert(x, s, key)) == multiset{x} + multiset(s)
  {
    if s != [] && key(x) > key(s[0]) {
      InsertPermutes(x, s[1..], key);
      assert s == [s[0]] + s[1..];
    }
  }

  lemma {:induction false} InsertSorted<T>(x: T, s: seq<T>, key: T -> int)
    requires SortedBy(s, key)
    ensures SortedBy(Insert(x, s, key), key)
  {
    if s != [] && key(x) > key(s[0]) {
      var y, rest := s[0], s[1..];
      var r := Insert(x, rest, key);
      assert SortedBy(rest, key);
      InsertSorted(x, rest, key);
      InsertPermutes(x, rest, key);
      LowerBound(y, r, key, x, rest);
      var t := [y] + r;
      assert Insert(x, s, key) == t;
      forall i, j | 0 <= i < j < |t|
        ensures key(t[i]) <= key(t[j])
      {
        assert t[j] == r[j - 1];
        if i > 0 {
          assert t[i] == r[i - 1];
        }
      }
    }
  }

  /** `y`'s key bounds every element of `r` from below when `r` holds `x` and the elements of
      a sequence already bounded by it. */
  lemma LowerBound<T>(y: T, r: seq<T>, key: T -> int, x: T, rest: seq<T>)
    requires multiset(r) == multiset{x} + multiset(rest)
    requires key(y) <= key(x)
    requires forall i :: 0 <= i < |rest| ==> key(y) <= key(rest[i])
    ensures forall i :: 0 <= i < |r| ==> key(y) <= key(r[i])
  {
    forall i | 0 <= i < |r|
      ensures key(y) <= key(r[i])
    {
      assert r[i] in multiset(r);
      assert r[i] == x || r[i] in multiset(rest);
    }
  }

  lemma {:induction false} SortByCorrect<T>(s: seq<T>, key: T -> int)
    ensures SortedBy(SortBy(s, key), key)
    ensures multiset(SortBy(s, key)) == multiset(s)
    ensures |SortBy(s, key)| == |s|
  {
    if s != [] {
      SortByCorrect(s[1..], key);
      InsertSorted(s[0], SortBy(s[1..], key), key);
      InsertPermutes(s[0], SortBy(s[1..], key), key);
      assert s == [s[0]] + s[1..];
    }
  }

  lemma WithKeyCons<T>(x: T, s: seq<T>, key: T -> int, k: int)
    ensures WithKey([x] + s, key, k) == (if key(x) == k then [x] else []) + WithKey(s, key, k)
  {
    assert ([x] + s)[0] == x && ([x] + s)[1..] == s;
  }

  lemma {:induction false} InsertWithKey<T>(x: T, s: seq<T>, key: T -> int, k: int)
    ensures WithKey(Insert(x, s, key), key, k) == (if key(x) == k then [x] else []) + WithKey(s, key, k)
  {
    if s == [] || key(x) <= key(s[0]) {
      WithKeyCons(x, s, key, k);
    } else {
      var y, rest := s[0], s[1..];
      assert s == [y] + rest;
      var r := Insert(x, rest, key);
      assert Insert(x, s, key) == [y] + r;
      InsertWithKey(x, rest, key, k);
      WithKeyCons(y, r, key, k);
      WithKeyCons(y, rest, key, k);
      assert !(key(x) == k && key(y) == k);
    }
  }

  /** Stability: for every key, the elements with that key keep their relative order. */
  lemma {:induction false} SortByStable<T>(s: seq<T>, key: T -> int, k: int)
    ensures WithKey(SortBy(s, key), key, k) == WithKey(s, key, k)
  {
    if s != [] {
      SortByStable(s[1..], key, k);
      InsertWithKey(s[0], SortBy(s[1..], key), key, k);
    }
  }
}
