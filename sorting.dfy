/** Ordering a sequence by an integer key, as `sort.Sort` and `sort.Slice`
    do in the modelled code. Go's sort is not stable, so the contract
    promises only an ordering by key and a permutation, nothing about the
    relative order of entries with equal keys. */
module Sorting {

  predicate SortedBy<T>(s: seq<T>, key: T -> int) {
    forall i, j | 0 <= i < j < |s| :: key(s[i]) <= key(s[j])
  }

  /** Places `x` before the first entry whose key is not smaller. */
  function InsertBy<T(==)>(x: T, s: seq<T>, key: T -> int): (r: seq<T>)
    requires SortedBy(s, key)
    ensures SortedBy(r, key)
    ensures multiset(r) == multiset(s) + multiset{x}
    ensures |r| == |s| + 1
    ensures r[0] == x || (s != [] && r[0] == s[0])
    decreases |s|
  {
    if s == [] then [x]
    else if key(x) <= key(s[0]) then [x] + s
    else
      var rest := InsertBy(x, s[1..], key);
      var r := [s[0]] + rest;
      assert s == [s[0]] + s[1..];
      assert multiset(r) == multiset(s) + multiset{x} by {
        assert multiset(r) == multiset{s[0]} + multiset(rest);
        assert multiset(s) == multiset{s[0]} + multiset(s[1..]);
      }
      SortedCons(s[0], rest, key);
      r
  }

  lemma SortedCons<T>(h: T, s: seq<T>, key: T -> int)
    requires SortedBy(s, key)
    requires s != [] ==> key(h) <= key(s[0])
    ensures SortedBy([h] + s, key)
  {
    var r := [h] + s;
    forall i, j | 0 <= i < j < |r| ensures key(r[i]) <= key(r[j]) {
      if i > 0 {
        assert r[i] == s[i - 1] && r[j] == s[j - 1];
      } else {
        assert key(s[0]) <= key(s[j - 1]);
      }
    }
  }

  /** A reordering of `s` by key. */
  function SortBy<T(==)>(s: seq<T>, key: T -> int): (r: seq<T>)
    ensures SortedBy(r, key)
    ensures multiset(r) == multiset(s)
    ensures |r| == |s|
    decreases |s|
  {
    if s == [] then []
    else
      assert s == [s[0]] + s[1..];
      InsertBy(s[0], SortBy(s[1..], key), key)
  }

  /** A permutation has the same members. */
  lemma SameMembers<T>(a: seq<T>, b: seq<T>)
    requires multiset(a) == multiset(b)
    ensures forall x | x in a :: x in b
  {
    forall x | x in a ensures x in b {
      assert x in multiset(a);
    }
  }
}
