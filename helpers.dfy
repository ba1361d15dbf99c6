/** Generic slice helpers and the time-range test. Times are integers (for
    instance milliseconds); the integer 0 stands for Go's zero time. */
module Helpers {

  /** `Includes`: the linear search. */
  method Includes<T(==)>(s: seq<T>, e: T) returns (found: bool)
    ensures found <==> e in s
  {
    var k := 0;
    while k < |s|
      invariant 0 <= k <= |s|
      invariant e !in s[..k]
    {
      if s[k] == e {
        return true;
      }
      assert s[..k + 1] == s[..k] + [s[k]];
      k := k + 1;
    }
    assert s[..k] == s;
    return false;
  }

  /** The least position holding `el`, or -1. */
  function FirstIndexOf<T(==)>(s: seq<T>, el: T): (k: int)
    ensures -1 <= k < |s|
    ensures k == -1 <==> el !in s
    ensures k >= 0 ==> s[k] == el && el !in s[..k]
    decreases |s|
  {
    if s == [] then -1
    else if s[0] == el then 0
    else
      var k := FirstIndexOf(s[1..], el);
      assert s == [s[0]] + s[1..];
      if k < 0 then -1
      else
        assert s[..k + 1] == [s[0]] + s[1..][..k];
        k + 1
  }

  /** `IndexOf`: the loop returning at the first match. */
  method IndexOf<T(==)>(s: seq<T>, el: T) returns (k: int)
    ensures k == FirstIndexOf(s, el)
  {
    var i := 0;
    while i < |s|
      invariant 0 <= i <= |s|
      invariant el !in s[..i]
    {
      if s[i] == el {
        return i;
      }
      assert s[..i + 1] == s[..i] + [s[i]];
      i := i + 1;
    }
    assert s[..i] == s;
    return -1;
  }

  /** `RemoveByIndex`: a fresh slice without position `i`, or `s` itself
      when `i` is out of range. */
  function RemoveByIndex<T>(s: seq<T>, i: int): (r: seq<T>)
    ensures (i < 0 || i >= |s|) ==> r == s
    ensures 0 <= i < |s| ==>
      |r| == |s| - 1 &&
      (forall j | 0 <= j < i :: r[j] == s[j]) &&
      (forall j | i <= j < |r| :: r[j] == s[j + 1])
    ensures 0 <= i < |s| ==> multiset(r) == multiset(s) - multiset{s[i]}
  {
    if i < 0 || i >= |s| then s
    else
      assert s == s[..i] + [s[i]] + s[i + 1..];
      s[..i] + s[i + 1..]
  }

  /** `RemoveItem`: only the first occurrence of `el` goes. */
  function RemoveItem<T(==)>(s: seq<T>, el: T): (r: seq<T>)
    ensures el !in s ==> r == s
    ensures el in s ==>
      var k := FirstIndexOf(s, el);
      r == s[..k] + s[k + 1..] && multiset(r) == multiset(s) - multiset{el}
  {
    var k := FirstIndexOf(s, el);
    if k < 0 then s
    else
      assert s == s[..k] + [s[k]] + s[k + 1..];
      RemoveByIndex(s, k)
  }

  /** The elements of `a` that `b` lacks, in order, duplicates kept. */
  function Missing<T(==)>(a: seq<T>, b: seq<T>): seq<T>
    decreases |a|
  {
    if a == [] then []
    else
      var last := a[|a| - 1];
      Missing(a[..|a| - 1], b) + (if last in b then [] else [last])
  }

  /** `Missing` holds exactly the elements of `a` that `b` lacks, and no more entries than `a`. */
  lemma {:induction false} MissingMembers<T>(a: seq<T>, b: seq<T>)
    ensures forall x | x in Missing(a, b) :: x in a && x !in b
    ensures forall x | x in a && x !in b :: x in Missing(a, b)
    ensures |Missing(a, b)| <= |a|
    decreases |a|
  {
    if a != [] {
      var front := a[..|a| - 1];
      assert a == front + [a[|a| - 1]];
      MissingMembers(front, b);
    }
  }

  /** `Missing` looks at one more element of `a`. */
  lemma MissingSnoc<T>(a: seq<T>, x: T, b: seq<T>)
    ensures Missing(a + [x], b) == Missing(a, b) + (if x in b then [] else [x])
  {
    assert (a + [x])[..|a|] == a;
  }

  /** One pass of `Diff`'s outer loop: appends the elements of `s1` absent from `s2`. */
  method AppendMissing<T(==)>(diff: seq<T>, s1: seq<T>, s2: seq<T>) returns (r: seq<T>)
    ensures r == diff + Missing(s1, s2)
  {
    r := diff;
    var k := 0;
    while k < |s1|
      invariant 0 <= k <= |s1|
      invariant r == diff + Missing(s1[..k], s2)
    {
      var found := Includes(s2, s1[k]);
      assert s1[..k + 1] == s1[..k] + [s1[k]];
      MissingSnoc(s1[..k], s1[k], s2);
      if !found {
        r := r + [s1[k]];
      }
      k := k + 1;
    }
    assert s1[..k] == s1;
  }

  /** `Diff`: two passes, the inputs swapped between them. */
  method Diff<T(==)>(slice1: seq<T>, slice2: seq<T>) returns (diff: seq<T>)
    ensures diff == Missing(slice1, slice2) + Missing(slice2, slice1)
  {
    diff := [];
    var s1, s2 := slice1, slice2;
    var i := 0;
    while i < 2
      invariant 0 <= i <= 2
      invariant i == 0 ==> diff == [] && s1 == slice1 && s2 == slice2
      invariant i == 1 ==> diff == Missing(slice1, slice2) && s1 == slice2 && s2 == slice1
      invariant i == 2 ==> diff == Missing(slice1, slice2) + Missing(slice2, slice1)
    {
      diff := AppendMissing(diff, s1, s2);
      if i == 0 {
        s1, s2 := s2, s1;
      }
      i := i + 1;
    }
  }

  /** The result of `Diff` holds exactly the elements in one input but not the other. */
  lemma DiffIsSymmetricDifference<T>(a: seq<T>, b: seq<T>)
    ensures forall x | x in Missing(a, b) + Missing(b, a) :: (x in a) != (x in b)
    ensures forall x | (x in a) != (x in b) :: x in Missing(a, b) + Missing(b, a)
  {
    MissingMembers(a, b);
    MissingMembers(b, a);
  }

  /** The time `TimeInRange` tests: the first variadic argument unless it
      is absent or the zero time, otherwise now. */
  function BaseTime(base: seq<int>, now: int): (t: int)
    ensures |base| > 0 && base[0] != 0 ==> t == base[0]
    ensures !(|base| > 0 && base[0] != 0) ==> t == now
  {
    if |base| > 0 && base[0] != 0 then base[0] else now
  }

  /** `TimeInRange`. */
  function TimeInRange(start: int, finish: int, inclusive: bool, base: seq<int>, now: int): (r: bool)
    ensures inclusive ==> (r <==> start <= BaseTime(base, now) <= finish)
    ensures !inclusive ==> (r <==> start < BaseTime(base, now) < finish)
  {
    var t := BaseTime(base, now);
    if !inclusive then start < t && t < finish
    else (t == start || t > start) && (t == finish || t < finish)
  }

  /** A time strictly inside a range is inside it with the bounds included;
      the inclusive test adds exactly the two bounds. */
  lemma StrictInsideInclusive(start: int, finish: int, base: seq<int>, now: int)
    ensures TimeInRange(start, finish, false, base, now) ==> TimeInRange(start, finish, true, base, now)
    ensures TimeInRange(start, finish, true, base, now) && !TimeInRange(start, finish, false, base, now) ==>
      BaseTime(base, now) == start || BaseTime(base, now) == finish
  {
  }
}
