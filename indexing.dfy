// Index-list helpers shared by the modules: strictly increasing lists of
// positions (numpy `nonzero`, `sorted(set(...))`) and the two `searchsorted`
// lookups over them.

module Indexing {

  predicate Increasing(s: seq<int>)
  {
    forall i, j :: 0 <= i < j < |s| ==> s[i] < s[j]
  }

  /** searchsorted(s, x, side='left'): the first index whose entry is >= x. */
  function SearchLeft(s: seq<int>, x: int): (r: nat)
    ensures r <= |s|
    ensures forall k :: 0 <= k < r ==> s[k] < x
    ensures r < |s| ==> s[r] >= x
  {
    if s == [] || s[0] >= x then 0 else 1 + SearchLeft(s[1..], x)
  }

  /** searchsorted(s, x, side='right'): the first index whose entry is > x. */
  function SearchRight(s: seq<int>, x: int): (r: nat)
    ensures r <= |s|
    ensures forall k :: 0 <= k < r ==> s[k] <= x
    ensures r < |s| ==> s[r] > x
  {
    if s == [] || s[0] > x then 0 else 1 + SearchRight(s[1..], x)
  }

  lemma SearchLeftSorted(s: seq<int>, x: int)
    requires Increasing(s)
    ensures forall k :: SearchLeft(s, x) <= k < |s| ==> s[k] >= x
  {
  }

  lemma SearchRightSorted(s: seq<int>, x: int)
    requires Increasing(s)
    ensures forall k :: SearchRight(s, x) <= k < |s| ==> s[k] > x
  {
  }

  /** In a sorted list, the left search never passes the right search. */
  lemma SearchLeftAtMostRight(s: seq<int>, x: int)
    requires Increasing(s)
    ensures SearchLeft(s, x) <= SearchRight(s, x)
    ensures SearchRight(s, x) - SearchLeft(s, x) <= 1
    ensures SearchRight(s, x) == SearchLeft(s, x) + 1 <==> x in s
  {
    SearchLeftSorted(s, x);
    SearchRightSorted(s, x);
  }

  /** Both searches are monotone in the searched value. */
  lemma SearchMonotone(s: seq<int>, x: int, y: int)
    requires Increasing(s) && x <= y
    ensures SearchLeft(s, x) <= SearchLeft(s, y)
    ensures SearchRight(s, x) <= SearchRight(s, y)
  {
    SearchLeftSorted(s, x);
    SearchRightSorted(s, x);
  }

  /** The entries of a list, as a set. */
  function Members(s: seq<int>): set<int>
  {
    set x | x in s
  }

  /** Inserting into a strictly increasing list, dropping a duplicate. */
  function Insert(s: seq<int>, x: int): (r: seq<int>)
    requires Increasing(s)
    ensures Increasing(r)
    ensures Members(r) == Members(s) + {x}
  {
    if s == [] then [x]
    else if x < s[0] then [x] + s
    else if x == s[0] then s
    else
      var t := Insert(s[1..], x);
      InsertAbove(s, x, t);
      [s[0]] + t
  }

  /** Putting the head of `s` back in front of the insertion into its tail. */
  lemma InsertAbove(s: seq<int>, x: int, t: seq<int>)
    requires Increasing(s) && s != [] && s[0] < x
    requires Increasing(t) && Members(t) == Members(s[1..]) + {x}
    ensures Increasing([s[0]] + t) && Members([s[0]] + t) == Members(s) + {x}
  {
    assert Members(s) == {s[0]} + Members(s[1..]);
    assert forall k :: 0 <= k < |t| ==> t[k] in Members(t);
    assert Members([s[0]] + t) == {s[0]} + Members(t);
  }

  lemma IncreasingDistinct(s: seq<int>)
    requires Increasing(s)
    ensures |Members(s)| == |s|
  {
    if s != [] {
      IncreasingDistinct(s[1..]);
      assert Members(s) == {s[0]} + Members(s[1..]);
      assert s[0] !in Members(s[1..]);
    }
  }

  /** A strictly increasing list is determined by its members. */
  lemma {:induction false} IncreasingUnique(a: seq<int>, b: seq<int>)
    requires Increasing(a) && Increasing(b) && Members(a) == Members(b)
    ensures a == b
  {
    if a == [] || b == [] {
      IncreasingDistinct(a);
      IncreasingDistinct(b);
    } else {
      assert b[0] in Members(b) && a[0] in Members(a);
      HeadIsLeast(a, b[0]);
      HeadIsLeast(b, a[0]);
      forall x
        ensures x in Members(a[1..]) <==> x in Members(b[1..])
      {
        TailMembers(a, x);
        TailMembers(b, x);
      }
      assert Members(a[1..]) == Members(b[1..]);
      IncreasingUnique(a[1..], b[1..]);
      assert a == [a[0]] + a[1..];
      assert b == [b[0]] + b[1..];
    }
  }

  lemma HeadIsLeast(s: seq<int>, x: int)
    requires Increasing(s) && x in s
    ensures s[0] <= x
  {
  }

  lemma TailMembers(s: seq<int>, x: int)
    requires Increasing(s) && s != []
    ensures x in Members(s[1..]) <==> x in Members(s) && x != s[0]
  {
    if x in s && x != s[0] {
      var k :| 0 <= k < |s| && s[k] == x;
      assert s[1..][k - 1] == x;
    }
  }

  /** sorted(set(s)): the distinct entries of `s`, ascending. */
  function SortedDistinct(s: seq<int>): (r: seq<int>)
    ensures Increasing(r)
    ensures Members(r) == Members(s)
    ensures |r| == |Members(s)|
  {
    if s == [] then []
    else
      var t := SortedDistinct(s[..|s| - 1]);
      assert s == s[..|s| - 1] + [s[|s| - 1]];
      var r := Insert(t, s[|s| - 1]);
      IncreasingDistinct(r);
      r
  }

  /** nonzero(flags == v): the ascending positions whose flag equals `v`. */
  function Where(flags: seq<bool>, v: bool): (r: seq<nat>)
    ensures Increasing(r)
    ensures forall k :: 0 <= k < |r| ==> r[k] < |flags| && flags[r[k]] == v
    ensures forall i :: 0 <= i < |flags| && flags[i] == v ==> i in r
  {
    if flags == [] then []
    else
      var t := Where(flags[..|flags| - 1], v);
      var last := |flags| - 1;
      if flags[last] == v then t + [last] else t
  }

  /** The list 0, 1, ..., n - 1 (numpy `arange`). */
  function Range(n: nat): (r: seq<nat>)
    ensures |r| == n
    ensures forall k :: 0 <= k < n ==> r[k] == k
  {
    if n == 0 then [] else Range(n - 1) + [n - 1]
  }

  lemma RangeIncreasing(n: nat)
    ensures Increasing(Range(n))
  {
  }

  /** The entries of `s` lying in [lo, hi], in their original order. */
  function Between(s: seq<int>, lo: int, hi: int): (r: seq<int>)
    ensures forall x :: x in r <==> x in s && lo <= x <= hi
    ensures |r| <= |s|
  {
    if s == [] then []
    else (if lo <= s[0] <= hi then [s[0]] else []) + Between(s[1..], lo, hi)
  }

  /** In a sorted list the entries in [lo, hi] form the slice between the two searches. */
  lemma {:induction false} BetweenIsSlice(s: seq<int>, lo: int, hi: int)
    requires Increasing(s) && lo <= hi
    ensures SearchLeft(s, lo) <= SearchRight(s, hi)
    ensures Between(s, lo, hi) == s[SearchLeft(s, lo)..SearchRight(s, hi)]
  {
    if s != [] {
      BetweenIsSlice(s[1..], lo, hi);
      if s[0] < lo {
        SliceBelow(s, lo, hi);
      } else if s[0] <= hi {
        SliceAt(s, lo, hi);
      } else {
        SliceAbove(s, lo, hi);
      }
    }
  }

  /** The slice property of `s[1..]`. */
  predicate TailSlice(s: seq<int>, lo: int, hi: int)
    requires s != []
  {
    var t := s[1..];
    SearchLeft(t, lo) <= SearchRight(t, hi) && Between(t, lo, hi) == t[SearchLeft(t, lo)..SearchRight(t, hi)]
  }

  lemma SliceBelow(s: seq<int>, lo: int, hi: int)
    requires s != [] && s[0] < lo <= hi && TailSlice(s, lo, hi)
    ensures SearchLeft(s, lo) <= SearchRight(s, hi)
    ensures Between(s, lo, hi) == s[SearchLeft(s, lo)..SearchRight(s, hi)]
  {
    var t := s[1..];
    SliceOfTail(s, SearchLeft(t, lo), SearchRight(t, hi));
  }

  lemma SliceOfTail(s: seq<int>, a: int, b: int)
    requires 0 <= a <= b < |s|
    ensures s[1..][a..b] == s[1 + a..1 + b]
  {
  }

  lemma SliceAt(s: seq<int>, lo: int, hi: int)
    requires Increasing(s) && s != [] && lo <= s[0] <= hi && TailSlice(s, lo, hi)
    ensures SearchLeft(s, lo) <= SearchRight(s, hi)
    ensures Between(s, lo, hi) == s[SearchLeft(s, lo)..SearchRight(s, hi)]
  {
    var t := s[1..];
    assert Between(s, lo, hi) == [s[0]] + Between(t, lo, hi);
    assert t != [] ==> t[0] > s[0];
    assert SearchLeft(t, lo) == 0;
    assert SearchRight(s, hi) == 1 + SearchRight(t, hi);
    assert s[0..SearchRight(s, hi)] == [s[0]] + t[0..SearchRight(t, hi)];
  }

  lemma SliceAbove(s: seq<int>, lo: int, hi: int)
    requires Increasing(s) && s != [] && lo <= hi < s[0] && TailSlice(s, lo, hi)
    ensures SearchLeft(s, lo) <= SearchRight(s, hi)
    ensures Between(s, lo, hi) == s[SearchLeft(s, lo)..SearchRight(s, hi)]
  {
    var t := s[1..];
    assert Between(s, lo, hi) == Between(t, lo, hi);
    assert t != [] ==> t[0] > s[0];
    assert SearchLeft(t, lo) == 0;
    assert SearchRight(t, hi) == 0;
  }
}
