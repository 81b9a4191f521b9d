// Intervals of workshifts (timeboard/interval.py: `_BaseInterval`,
// `Interval`, `_VoidInterval`).
//
// An interval is a pair of workshift positions on a timeline of `n`
// workshifts.  Queries read the duty index of a schedule: the ascending
// positions of the on-duty, the off-duty or all workshifts.

module Intervals {
  import opened Errors
  import opened Indexing
  import opened Bands
  import opened Schedules

  /** A bound passed to the constructor: an integer position, a Workshift
      (its position), or something else. */
  datatype BoundArg = IntBound(loc: int) | WorkshiftBound(wsLoc: int) | OtherBound

  /** `(first, last)` positions; a void interval has `first > last`. */
  datatype Interval = Interval(first: int, last: int, isVoid: bool)

  predicate ValidInterval(n: nat, i: Interval)
  {
    0 <= i.first < n && 0 <= i.last < n && (i.isVoid <==> i.first > i.last)
  }

  function BoundLoc(b: BoundArg): int
    requires !b.OtherBound?
  {
    match b
    case IntBound(loc) => loc
    case WorkshiftBound(loc) => loc
  }

  /** `handle_bound`: the position of a bound inside the timeline. */
  function HandleBound(n: nat, b: BoundArg): (r: Result<nat>)
    ensures b.OtherBound? ==> r == Err(TypeError)
    ensures !b.OtherBound? ==> (r.Ok? <==> 0 <= BoundLoc(b) < n)
    ensures !b.OtherBound? && r.Err? ==> r.error == OutOfBounds
    ensures r.Ok? ==> r.value == BoundLoc(b)
  {
    if b.OtherBound? then Err(TypeError)
    else if 0 <= BoundLoc(b) < n then Ok(BoundLoc(b))
    else Err(OutOfBounds)
  }

  /** `_BaseInterval.__init__` for an `Interval` (`isVoid` false) or a
      `_VoidInterval` (`isVoid` true); `bounds` is None when it is not list-like. */
  function MakeInterval(n: nat, bounds: Option<seq<BoundArg>>, isVoid: bool): (r: Result<Interval>)
    ensures bounds.None? ==> r == Err(TypeError)
    ensures bounds.Some? && |bounds.value| < 2 ==> r == Err(IndexError)
    ensures bounds.Some? && |bounds.value| >= 2 && HandleBound(n, bounds.value[0]).Err? ==>
              r == Err(HandleBound(n, bounds.value[0]).error)
    ensures bounds.Some? && |bounds.value| >= 2 && HandleBound(n, bounds.value[0]).Ok?
            && HandleBound(n, bounds.value[1]).Err? ==>
              r == Err(HandleBound(n, bounds.value[1]).error)
    ensures bounds.Some? && |bounds.value| >= 2 && HandleBound(n, bounds.value[0]).Ok?
            && HandleBound(n, bounds.value[1]).Ok? ==>
              var lo, hi := HandleBound(n, bounds.value[0]).value, HandleBound(n, bounds.value[1]).value;
              && ((isVoid <==> lo > hi) ==> r == Ok(Interval(lo, hi, isVoid)))
              && (!(isVoid <==> lo > hi) ==> r == Err(VoidInterval))
    ensures r.Ok? ==> ValidInterval(n, r.value) && r.value.isVoid == isVoid
  {
    if bounds.None? then Err(TypeError)
    else if |bounds.value| < 2 then Err(IndexError)
    else
      match HandleBound(n, bounds.value[0])
      case Err(e) => Err(e)
      case Ok(lo) =>
        match HandleBound(n, bounds.value[1])
        case Err(e) => Err(e)
        case Ok(hi) =>
          if isVoid && lo <= hi then Err(VoidInterval)
          else if !isVoid && lo > hi then Err(VoidInterval)
          else Ok(Interval(lo, hi, isVoid))
  }

  /** `length`: the number of workshifts; 0 for a void interval. */
  function Length(i: Interval): (r: nat)
    requires i.isVoid || i.first <= i.last
    ensures r == 0 <==> i.isVoid
  {
    if i.isVoid then 0 else i.last - i.first + 1
  }

  // ----- duty indices -----

  /** The duty index a duty string selects: `_duty_idx[duty]`. */
  function DutyIdx<L>(s: Schedule<L>, duty: string): (r: Result<seq<nat>>)
    ensures r.Err? <==> duty != "on" && duty != "off" && duty != "any"
    ensures r.Err? ==> r.error == ValueError
    ensures duty == "on" ==> r == Ok(s.onDuty)
    ensures duty == "off" ==> r == Ok(s.offDuty)
    ensures duty == "any" ==> r == Ok(Index(s))
  {
    if duty == "on" then Ok(s.onDuty)
    else if duty == "off" then Ok(s.offDuty)
    else if duty == "any" then Ok(Index(s))
    else Err(ValueError)
  }

  /** Every duty index of a built schedule is an ascending list of positions. */
  lemma DutyIdxIncreasing<L>(s: Schedule<L>, duty: string)
    requires Built(s) && DutyIdx(s, duty).Ok?
    ensures Increasing(DutyIdx(s, duty).value)
    ensures forall k :: 0 <= k < |DutyIdx(s, duty).value| ==> DutyIdx(s, duty).value[k] < |s.labels|
  {
  }

  /** The positions in the ascending list `idx` of its first and last entries
      within [lo, hi], or None when there is no such entry. */
  function DutyBounds(idx: seq<int>, lo: int, hi: int): (r: Option<(nat, nat)>)
    ensures r.Some? ==> r.value.0 <= r.value.1 < |idx|
  {
    var l := SearchLeft(idx, lo);
    var rr := SearchRight(idx, hi) - 1;
    if l == |idx| || rr < l then None else Some((l, rr))
  }

  /** The bounds found are exactly the list positions whose entries lie in [lo, hi]. */
  lemma DutyBoundsExact(idx: seq<int>, lo: int, hi: int)
    requires Increasing(idx)
    ensures DutyBounds(idx, lo, hi).None? <==> forall k :: 0 <= k < |idx| ==> !(lo <= idx[k] <= hi)
    ensures DutyBounds(idx, lo, hi).Some? ==>
              var (l, r) := DutyBounds(idx, lo, hi).value;
              forall k :: 0 <= k < |idx| ==> (l <= k <= r <==> lo <= idx[k] <= hi)
  {
    SearchLeftSorted(idx, lo);
    SearchRightSorted(idx, hi);
  }

  /** `_find_my_bounds_in_idx`: the two scans of the duty index. */
  method FindBoundsInIdx(idx: seq<int>, lo: int, hi: int) returns (r: Option<(nat, nat)>)
    requires Increasing(idx)
    ensures r == DutyBounds(idx, lo, hi)
  {
    var left := 0;
    while left < |idx| && idx[left] < lo
      invariant 0 <= left <= |idx|
      invariant forall k :: 0 <= k < left ==> idx[k] < lo
    {
      left := left + 1;
    }
    SearchLeftSorted(idx, lo);
    assert left < |idx| ==> idx[left] >= lo;
    assert left == SearchLeft(idx, lo);
    if left == |idx| {
      return None;
    }
    var right := |idx| - 1;
    while right >= left && idx[right] > hi
      invariant left - 1 <= right <= |idx| - 1
      invariant forall k :: right < k < |idx| ==> idx[k] > hi
    {
      right := right - 1;
    }
    SearchRightSorted(idx, hi);
    assert right + 1 < |idx| ==> idx[right + 1] > hi;
    assert right >= left ==> idx[right] <= hi;
    if right < left {
      assert SearchRight(idx, hi) <= left;
      return None;
    }
    assert right == SearchRight(idx, hi) - 1;
    return Some((left, right));
  }

  /** `_get_duty_idx`: the duty index and the interval's bounds in it; for
      'any' the bounds are the interval's own positions. */
  function GetDutyIdx<L>(i: Interval, s: Schedule<L>, duty: string): (r: Result<(seq<nat>, Option<(nat, nat)>)>)
    requires ValidInterval(|s.labels|, i) && !i.isVoid
    ensures r.Err? <==> DutyIdx(s, duty).Err?
    ensures r.Err? ==> r.error == ValueError
    ensures r.Ok? ==> r.value.0 == DutyIdx(s, duty).value
    ensures r.Ok? && duty != "any" ==> r.value.1 == DutyBounds(r.value.0, i.first, i.last)
    ensures r.Ok? && duty == "any" ==> r.value.1 == Some((i.first, i.last))
    ensures r.Ok? && r.value.1.Some? ==> r.value.1.value.0 <= r.value.1.value.1 < |r.value.0|
  {
    match DutyIdx(s, duty)
    case Err(e) => Err(e)
    case Ok(idx) =>
      if duty != "any" then Ok((idx, DutyBounds(idx, i.first, i.last)))
      else Ok((idx, Some((i.first, i.last))))
  }

  /** `bounds` delimit the slice `d` of `idx`, or there is none and `d` is empty. */
  predicate SliceOf(idx: seq<nat>, bounds: Option<(nat, nat)>, d: seq<int>)
  {
    && (bounds.None? ==> d == [])
    && (bounds.Some? ==> bounds.value.0 <= bounds.value.1 < |idx|
                         && d == idx[bounds.value.0..bounds.value.1 + 1])
  }

  /** The entries of a duty index within the interval. */
  ghost function DutyIn(idx: seq<nat>, i: Interval): set<int>
  {
    set x | x in idx && i.first <= x <= i.last
  }

  /** In `Range(n)` the searches land on the searched positions. */
  lemma SearchRange(n: nat, lo: nat, hi: nat)
    requires lo <= hi < n
    ensures SearchLeft(Range(n), lo) == lo
    ensures SearchRight(Range(n), hi) == hi + 1
  {
    assert Range(n)[lo] == lo && Range(n)[hi] == hi;
    assert hi + 1 < n ==> Range(n)[hi + 1] == hi + 1;
  }

  /** The bounds found in an ascending list delimit its entries in [lo, hi]. */
  lemma DutyBoundsSlice(idx: seq<nat>, lo: int, hi: int)
    requires Increasing(idx) && lo <= hi
    ensures SliceOf(idx, DutyBounds(idx, lo, hi), Between(idx, lo, hi))
  {
    BetweenIsSlice(idx, lo, hi);
  }

  /** For all workshifts, the interval's own bounds delimit its positions. */
  lemma RangeSlice(n: nat, lo: nat, hi: nat)
    requires lo <= hi < n
    ensures SliceOf(Range(n), Some((lo, hi)), Between(Range(n), lo, hi))
  {
    RangeIncreasing(n);
    BetweenIsSlice(Range(n), lo, hi);
    SearchRange(n, lo, hi);
  }

  /** The bounds of a duty index delimit the interval's duty workshifts. */
  lemma DutySlice<L>(i: Interval, s: Schedule<L>, duty: string)
    requires Built(s) && ValidInterval(|s.labels|, i) && !i.isVoid && DutyIdx(s, duty).Ok?
    ensures var idx := DutyIdx(s, duty).value;
            SliceOf(idx, GetDutyIdx(i, s, duty).value.1, Between(idx, i.first, i.last))
  {
    if duty == "any" {
      RangeSlice(|s.labels|, i.first, i.last);
    } else {
      DutyIdxIncreasing(s, duty);
      DutyBoundsSlice(DutyIdx(s, duty).value, i.first, i.last);
    }
  }

  /** A slice of an ascending list is ascending and holds no repeats. */
  lemma SliceIncreasing(idx: seq<nat>, l: nat, r: nat)
    requires Increasing(idx) && l <= r <= |idx|
    ensures Increasing(idx[l..r])
    ensures |Members(idx[l..r])| == r - l
  {
    var d := idx[l..r];
    assert forall a, b :: 0 <= a < b < |d| ==> d[a] == idx[l + a] && d[b] == idx[l + b];
    IncreasingDistinct(d);
  }

  /** The interval's duty workshifts, in ascending order. */
  lemma DutySliceMembers<L>(i: Interval, s: Schedule<L>, duty: string)
    requires Built(s) && ValidInterval(|s.labels|, i) && !i.isVoid && DutyIdx(s, duty).Ok?
    ensures var d := Between(DutyIdx(s, duty).value, i.first, i.last);
            Increasing(d) && Members(d) == DutyIn(DutyIdx(s, duty).value, i) && |Members(d)| == |d|
  {
    var idx := DutyIdx(s, duty).value;
    DutyIdxIncreasing(s, duty);
    BetweenIsSlice(idx, i.first, i.last);
    SliceIncreasing(idx, SearchLeft(idx, i.first), SearchRight(idx, i.last));
  }

  // ----- count -----

  /** The number of entries between found bounds. */
  function CountIn(bounds: Option<(nat, nat)>): (r: nat)
    requires bounds.Some? ==> bounds.value.0 <= bounds.value.1
    ensures forall idx, d :: SliceOf(idx, bounds, d) ==> r == |d|
  {
    if bounds.None? then 0 else bounds.value.1 - bounds.value.0 + 1
  }

  /** `count`; a void interval counts 0 whatever the arguments. */
  function Count<L>(i: Interval, s: Schedule<L>, duty: string): (r: Result<nat>)
    requires ValidInterval(|s.labels|, i)
    ensures i.isVoid ==> r == Ok(0)
    ensures !i.isVoid ==> (r.Err? <==> DutyIdx(s, duty).Err?)
    ensures r.Err? ==> r.error == ValueError
    ensures !i.isVoid && duty == "any" ==> r == Ok(Length(i))
  {
    if i.isVoid then Ok(0)
    else
      match GetDutyIdx(i, s, duty)
      case Err(e) => Err(e)
      case Ok((_, bounds)) => Ok(CountIn(bounds))
  }

  /** `count` is the number of the interval's workshifts with the duty. */
  lemma CountIsDutyCount<L>(i: Interval, s: Schedule<L>, duty: string)
    requires Built(s) && ValidInterval(|s.labels|, i) && !i.isVoid && DutyIdx(s, duty).Ok?
    ensures Count(i, s, duty) == Ok(|DutyIn(DutyIdx(s, duty).value, i)|)
  {
    DutySlice(i, s, duty);
    DutySliceMembers(i, s, duty);
  }

  // ----- nth, first, last -----

  /** The entry of `idx` `n` places after the lower bound (`n >= 0`) or
      `-n - 1` places before the upper bound (`n < 0`). */
  function NthIn(idx: seq<nat>, bounds: Option<(nat, nat)>, n: int): (r: Result<nat>)
    requires bounds.Some? ==> bounds.value.0 <= bounds.value.1 < |idx|
    ensures r.Err? ==> r.error == OutOfBounds
    ensures forall d :: SliceOf(idx, bounds, d) ==>
              && (r.Ok? <==> -|d| <= n < |d|)
              && (r.Ok? ==> r.value == d[if n >= 0 then n else |d| + n])
  {
    if bounds.None? then Err(OutOfBounds)
    else
      var (l, r) := bounds.value;
      var loc := if n >= 0 then l + n else r + n + 1;
      if loc < l || loc > r then Err(OutOfBounds) else Ok(idx[loc])
  }

  /** `nth(n)`: zero-based from the first duty workshift for `n >= 0`, from
      the last for `n < 0`; its position on the timeline. */
  function Nth<L>(i: Interval, s: Schedule<L>, duty: string, n: int): (r: Result<nat>)
    requires ValidInterval(|s.labels|, i)
    ensures i.isVoid ==> r == Err(OutOfBounds)
    ensures r.Err? ==> r.error == OutOfBounds || (r.error == ValueError && DutyIdx(s, duty).Err?)
    ensures !i.isVoid && DutyIdx(s, duty).Err? ==> r == Err(ValueError)
  {
    if i.isVoid then Err(OutOfBounds)
    else
      match GetDutyIdx(i, s, duty)
      case Err(e) => Err(e)
      case Ok((idx, bounds)) => NthIn(idx, bounds, n)
  }

  /** `first`: `nth(0)`. */
  function First<L>(i: Interval, s: Schedule<L>, duty: string): (r: Result<nat>)
    requires ValidInterval(|s.labels|, i)
    ensures r == Nth(i, s, duty, 0)
  {
    Nth(i, s, duty, 0)
  }

  /** `last`: `nth(-1)`. */
  function Last<L>(i: Interval, s: Schedule<L>, duty: string): (r: Result<nat>)
    requires ValidInterval(|s.labels|, i)
    ensures r == Nth(i, s, duty, -1)
  {
    Nth(i, s, duty, -1)
  }

  /** `nth(n)` is the n-th of the interval's duty workshifts in ascending
      order (counted from the end for negative `n`), and fails exactly when
      there are not enough of them. */
  lemma NthIsKth<L>(i: Interval, s: Schedule<L>, duty: string, n: int)
    requires Built(s) && ValidInterval(|s.labels|, i) && !i.isVoid && DutyIdx(s, duty).Ok?
    ensures var d := Between(DutyIdx(s, duty).value, i.first, i.last);
            && (Nth(i, s, duty, n).Ok? <==> -|d| <= n < |d|)
            && (Nth(i, s, duty, n).Ok? ==> Nth(i, s, duty, n).value == d[if n >= 0 then n else |d| + n])
  {
    DutySlice(i, s, duty);
  }

  /** The ends of an ascending list are its least and greatest entries. */
  lemma IncreasingEnds(d: seq<int>)
    requires Increasing(d) && d != []
    ensures forall x :: x in d ==> d[0] <= x <= d[|d| - 1]
  {
  }

  /** The first duty workshift is the earliest of the interval's duty
      workshifts, the last one the latest. */
  lemma FirstAndLastAreExtremes<L>(i: Interval, s: Schedule<L>, duty: string)
    requires Built(s) && ValidInterval(|s.labels|, i) && !i.isVoid && DutyIdx(s, duty).Ok?
    ensures First(i, s, duty).Ok? <==> DutyIn(DutyIdx(s, duty).value, i) != {}
    ensures Last(i, s, duty).Ok? <==> DutyIn(DutyIdx(s, duty).value, i) != {}
    ensures First(i, s, duty).Ok? ==>
              && First(i, s, duty).value in DutyIn(DutyIdx(s, duty).value, i)
              && forall x :: x in DutyIn(DutyIdx(s, duty).value, i) ==> First(i, s, duty).value <= x
    ensures Last(i, s, duty).Ok? ==>
              && Last(i, s, duty).value in DutyIn(DutyIdx(s, duty).value, i)
              && forall x :: x in DutyIn(DutyIdx(s, duty).value, i) ==> x <= Last(i, s, duty).value
  {
    FirstIsLeast(i, s, duty);
    LastIsGreatest(i, s, duty);
  }

  lemma FirstIsLeast<L>(i: Interval, s: Schedule<L>, duty: string)
    requires Built(s) && ValidInterval(|s.labels|, i) && !i.isVoid && DutyIdx(s, duty).Ok?
    ensures First(i, s, duty).Ok? <==> DutyIn(DutyIdx(s, duty).value, i) != {}
    ensures First(i, s, duty).Ok? ==>
              && First(i, s, duty).value in DutyIn(DutyIdx(s, duty).value, i)
              && forall x :: x in DutyIn(DutyIdx(s, duty).value, i) ==> First(i, s, duty).value <= x
  {
    NthIsKth(i, s, duty, 0);
    DutySliceMembers(i, s, duty);
    EndsAreExtremes(Between(DutyIdx(s, duty).value, i.first, i.last), DutyIn(DutyIdx(s, duty).value, i));
  }

  lemma LastIsGreatest<L>(i: Interval, s: Schedule<L>, duty: string)
    requires Built(s) && ValidInterval(|s.labels|, i) && !i.isVoid && DutyIdx(s, duty).Ok?
    ensures Last(i, s, duty).Ok? <==> DutyIn(DutyIdx(s, duty).value, i) != {}
    ensures Last(i, s, duty).Ok? ==>
              && Last(i, s, duty).value in DutyIn(DutyIdx(s, duty).value, i)
              && forall x :: x in DutyIn(DutyIdx(s, duty).value, i) ==> x <= Last(i, s, duty).value
  {
    NthIsKth(i, s, duty, -1);
    DutySliceMembers(i, s, duty);
    EndsAreExtremes(Between(DutyIdx(s, duty).value, i.first, i.last), DutyIn(DutyIdx(s, duty).value, i));
  }

  /** The ends of an ascending list are the least and greatest of its members. */
  lemma EndsAreExtremes(d: seq<int>, members: set<int>)
    requires Increasing(d) && Members(d) == members
    ensures d != [] <==> members != {}
    ensures d != [] ==> d[0] in members && forall x :: x in members ==> d[0] <= x
    ensures d != [] ==> d[|d| - 1] in members && forall x :: x in members ==> x <= d[|d| - 1]
  {
    if d != [] {
      IncreasingEnds(d);
      assert d[0] in Members(d) && d[|d| - 1] in Members(d);
    }
  }

  // ----- overlap -----

  /** The position `x` lies between the interval's bounds. */
  predicate Covers(i: Interval, x: int)
  {
    i.first <= x <= i.last
  }

  /** `overlap`: `(max first, min last)`, a void interval when that is
      reversed; a void interval overlaps into a void interval. */
  function Overlap(i: Interval, j: Interval): (r: Interval)
    ensures i.isVoid ==> r == Interval(i.first, i.last, true)
    ensures !i.isVoid ==> r.first == (if i.first >= j.first then i.first else j.first)
    ensures !i.isVoid ==> r.last == (if i.last <= j.last then i.last else j.last)
    ensures !i.isVoid ==> (r.isVoid <==> r.first > r.last)
  {
    if i.isVoid then Interval(i.first, i.last, true)
    else
      var lo := if i.first >= j.first then i.first else j.first;
      var hi := if i.last <= j.last then i.last else j.last;
      Interval(lo, hi, lo > hi)
  }

  /** The overlap holds exactly the positions the two intervals share; it is
      void when they share none or either of them is void. */
  lemma OverlapIsIntersection(n: nat, i: Interval, j: Interval)
    requires ValidInterval(n, i) && ValidInterval(n, j)
    ensures ValidInterval(n, Overlap(i, j))
    ensures i.isVoid || j.isVoid ==> Overlap(i, j).isVoid
    ensures !i.isVoid && !j.isVoid ==>
              forall x :: Covers(Overlap(i, j), x) <==> Covers(i, x) && Covers(j, x)
  {
  }

  // ----- what_portion_of -----

  /** `what_portion_of`: the duty count of the intersection over the duty
      count of `other`; 0 when the intersection has none. */
  function WhatPortionOf<L>(i: Interval, other: Interval, s: Schedule<L>, duty: string): (r: Result<real>)
    requires ValidInterval(|s.labels|, i) && ValidInterval(|s.labels|, other)
    ensures i.isVoid ==> r == Ok(0.0)
    ensures r.Err? ==> r.error == ValueError || r.error == ZeroDivision
  {
    if i.isVoid then Ok(0.0)
    else
      OverlapIsIntersection(|s.labels|, i, other);
      var x := Overlap(i, other);
      match Count(x, s, duty)
      case Err(e) => Err(e)
      case Ok(c) =>
        if c == 0 then Ok(0.0)
        else
          match Count(other, s, duty)
          case Err(e) => Err(e)
          case Ok(oc) => if oc == 0 then Err(ZeroDivision) else Ok(c as real / oc as real)
  }

  /** A subset is no larger than its superset. */
  lemma SubsetCard(a: set<int>, b: set<int>)
    requires a <= b
    ensures |a| <= |b|
  {
    assert b == a + (b - a);
    assert a * (b - a) == {};
  }

  /** The entries of a duty index in a sub-interval are among those of the interval. */
  lemma DutyInMonotone(idx: seq<nat>, a: Interval, b: Interval)
    requires b.first <= a.first && a.last <= b.last
    ensures DutyIn(idx, a) <= DutyIn(idx, b)
    ensures |DutyIn(idx, a)| <= |DutyIn(idx, b)|
  {
    SubsetCard(DutyIn(idx, a), DutyIn(idx, b));
  }

  /** A part over a positive whole lies between 0 and 1, and is 1 for the whole. */
  lemma RatioBounds(c: nat, oc: nat)
    requires c <= oc && 0 < oc
    ensures 0.0 <= c as real / oc as real <= 1.0
    ensures c == oc ==> c as real / oc as real == 1.0
  {
  }

  /** The portion never fails for a valid duty and lies between 0 and 1. */
  lemma WhatPortionOfBounds<L>(i: Interval, other: Interval, s: Schedule<L>, duty: string)
    requires Built(s) && ValidInterval(|s.labels|, i) && ValidInterval(|s.labels|, other)
    requires DutyIdx(s, duty).Ok?
    ensures WhatPortionOf(i, other, s, duty).Ok?
    ensures 0.0 <= WhatPortionOf(i, other, s, duty).value <= 1.0
  {
    if !i.isVoid {
      OverlapIsIntersection(|s.labels|, i, other);
      var x := Overlap(i, other);
      if !x.isVoid {
        CountIsDutyCount(x, s, duty);
        CountIsDutyCount(other, s, duty);
        DutyInMonotone(DutyIdx(s, duty).value, x, other);
        if Count(x, s, duty).value > 0 {
          RatioBounds(Count(x, s, duty).value, Count(other, s, duty).value);
        }
      }
    }
  }

  /** An interval containing the whole of `other` takes up all of it (or
      none, when `other` has no workshift with the duty). */
  lemma WhatPortionOfContained<L>(i: Interval, other: Interval, s: Schedule<L>, duty: string)
    requires Built(s) && ValidInterval(|s.labels|, i) && ValidInterval(|s.labels|, other)
    requires DutyIdx(s, duty).Ok? && !i.isVoid && !other.isVoid
    requires i.first <= other.first && other.last <= i.last
    ensures WhatPortionOf(i, other, s, duty)
            == Ok(if DutyIn(DutyIdx(s, duty).value, other) == {} then 0.0 else 1.0)
  {
    assert Overlap(i, other) == other;
    CountIsDutyCount(other, s, duty);
    var c := Count(other, s, duty).value;
    if c > 0 {
      RatioBounds(c, c);
    }
  }

  /** An invalid duty raises ValueError unless the intersection is void. */
  lemma WhatPortionOfInvalidDuty<L>(i: Interval, other: Interval, s: Schedule<L>, duty: string)
    requires ValidInterval(|s.labels|, i) && ValidInterval(|s.labels|, other)
    requires DutyIdx(s, duty).Err?
    ensures WhatPortionOf(i, other, s, duty) == (if Overlap(i, other).isVoid then Ok(0.0) else Err(ValueError))
  {
    OverlapIsIntersection(|s.labels|, i, other);
  }

  /** For a valid duty the portion is the number of duty workshifts shared
      with `other` over the number of duty workshifts of `other`: 0.0 when
      none is shared, and `other` then never lacks duty workshifts. */
  lemma WhatPortionOfValue<L>(i: Interval, other: Interval, s: Schedule<L>, duty: string)
    requires Built(s) && ValidInterval(|s.labels|, i) && ValidInterval(|s.labels|, other)
    requires DutyIdx(s, duty).Ok? && !i.isVoid
    ensures Overlap(i, other).isVoid ==> WhatPortionOf(i, other, s, duty) == Ok(0.0)
    ensures !Overlap(i, other).isVoid ==>
              var idx := DutyIdx(s, duty).value;
              var c := |DutyIn(idx, Overlap(i, other))|;
              var oc := |DutyIn(idx, other)|;
              && (c == 0 ==> WhatPortionOf(i, other, s, duty) == Ok(0.0))
              && (c > 0 ==> oc > 0 && WhatPortionOf(i, other, s, duty) == Ok(c as real / oc as real))
  {
    OverlapIsIntersection(|s.labels|, i, other);
    if !Overlap(i, other).isVoid {
      CountIsDutyCount(Overlap(i, other), s, duty);
      DutyInMonotone(DutyIdx(s, duty).value, Overlap(i, other), other);
      CountIsDutyCount(other, s, duty);
    }
  }

  // ----- total_duration -----

  /** The duty lists hold positions on the timeline, as they do in a built schedule. */
  predicate OnTimeline<L>(s: Schedule<L>)
  {
    && (forall k :: 0 <= k < |s.onDuty| ==> s.onDuty[k] < |s.labels|)
    && (forall k :: 0 <= k < |s.offDuty| ==> s.offDuty[k] < |s.labels|)
  }

  lemma BuiltOnTimeline<L>(s: Schedule<L>)
    requires Built(s)
    ensures OnTimeline(s)
  {
    DutyIdxIncreasing(s, "on");
    DutyIdxIncreasing(s, "off");
  }

  /** `total_duration`: the base units of the interval's duty workshifts. */
  function IntervalDuration<L>(i: Interval, s: Schedule<L>, duty: string, b: Band): (r: Result<nat>)
    requires ValidInterval(|s.labels|, i) && OnTimeline(s) && ValidBand(b) && |b.starts| == |s.labels|
    ensures i.isVoid ==> r == Ok(0)
    ensures !i.isVoid ==> (r.Err? <==> DutyIdx(s, duty).Err?)
    ensures r.Err? ==> r.error == ValueError
  {
    if i.isVoid then Ok(0)
    else
      match GetDutyIdx(i, s, duty)
      case Err(e) => Err(e)
      case Ok((idx, bounds)) =>
        if bounds.None? then Ok(0)
        else
          var (l, r) := bounds.value;
          Ok(TotalDuration(b, idx[l..r + 1]))
  }

  /** Over the whole timeline, the durations of all workshifts add up to
      the base units of the frame. */
  lemma WholeDuration<L>(s: Schedule<L>, b: Band)
    requires Built(s) && ValidBand(b) && |b.starts| == |s.labels|
    ensures IntervalDuration(Interval(0, |s.labels| - 1, false), s, "any", b) == Ok(b.units)
  {
    BuiltOnTimeline(s);
    var n := |s.labels|;
    assert Index(s)[0..n] == Range(n);
    DurationsSumToFrame(b);
  }

  /** For a valid duty the duration is the sum of the base units of exactly
      the duty workshifts inside the interval.  A built schedule meets the
      requirements: `BuiltOnTimeline`, `DutyIdxIncreasing`. */
  lemma {:induction false} IntervalDurationValue<L>(i: Interval, s: Schedule<L>, duty: string, b: Band)
    requires ValidInterval(|s.labels|, i) && OnTimeline(s) && ValidBand(b) && |b.starts| == |s.labels|
    requires !i.isVoid && DutyIdx(s, duty).Ok? && Increasing(DutyIdx(s, duty).value)
    ensures var d := Between(DutyIdx(s, duty).value, i.first, i.last);
            && (forall k :: 0 <= k < |d| ==> 0 <= d[k] < |b.starts|)
            && IntervalDuration(i, s, duty, b) == Ok(TotalDuration(b, d))
  {
    var idx := DutyIdx(s, duty).value;
    assert forall k :: 0 <= k < |idx| ==> idx[k] < |s.labels|;
    BetweenBelow(idx, i.first, i.last, |s.labels|);
    if duty == "any" {
      RangeSlice(|s.labels|, i.first, i.last);
    } else {
      DutyBoundsSlice(idx, i.first, i.last);
    }
    DurationOfSlice(i, s, duty, b, Between(idx, i.first, i.last));
  }

  /** The duration is the total over the slice of the duty index that the
      interval's bounds delimit. */
  lemma {:induction false} DurationOfSlice<L>(i: Interval, s: Schedule<L>, duty: string, b: Band, d: seq<nat>)
    requires ValidInterval(|s.labels|, i) && OnTimeline(s) && ValidBand(b) && |b.starts| == |s.labels|
    requires !i.isVoid && DutyIdx(s, duty).Ok?
    requires SliceOf(DutyIdx(s, duty).value, GetDutyIdx(i, s, duty).value.1, d)
    requires forall k :: 0 <= k < |d| ==> d[k] < |b.starts|
    ensures IntervalDuration(i, s, duty, b) == Ok(TotalDuration(b, d))
  {
  }

  /** The entries of a list of positions below `n` that lie in a range are below `n`. */
  lemma BetweenBelow(idx: seq<nat>, lo: int, hi: int, n: nat)
    requires forall k :: 0 <= k < |idx| ==> idx[k] < n
    ensures var d := Between(idx, lo, hi);
            forall k :: 0 <= k < |d| ==> 0 <= d[k] < n
  {
    var d := Between(idx, lo, hi);
    forall k | 0 <= k < |d|
      ensures 0 <= d[k] < n
    {
      assert d[k] in d;
      assert d[k] in idx;
    }
  }

  // ----- count_periods -----

  /** `SUPPORTED_PERIODS`. */
  predicate SupportedPeriod(freq: string)
  {
    freq in ["S", "T", "min", "H", "D", "W", "M", "Q", "A", "Y"]
  }

  /** A calendar period as gathered by `count_periods`: None when it is
      completely outside the timeboard, else its interval and duty count. */
  type Gathered = Option<(Interval, nat)>

  /** The loop of `count_periods` over the calendar periods: `periods[p]` is
      what `get_interval(p, clip_period=False)` gave for period `p`.  A
      period outside the timeboard is recorded as None; a void one raises
      UnacceptablePeriod; any other error propagates. */
  function GatherPeriods<L>(periods: seq<Result<Interval>>, s: Schedule<L>, duty: string): (r: Result<seq<Gathered>>)
    requires PeriodsValid(|s.labels|, periods)
    ensures r.Ok? ==> |r.value| == |periods|
    ensures r.Ok? ==> forall p :: 0 <= p < |periods| ==>
              && (periods[p].Ok? ==> Count(periods[p].value, s, duty).Ok?
                                     && r.value[p] == Some((periods[p].value, Count(periods[p].value, s, duty).value)))
              && (periods[p].Err? ==> r.value[p] == None && periods[p].error == OutOfBounds)
    ensures (exists p :: 0 <= p < |periods| && periods[p] == Err(VoidInterval)) ==> r.Err?
    decreases |periods|
  {
    if periods == [] then Ok([])
    else
      var init := periods[..|periods| - 1];
      var last := periods[|periods| - 1];
      assert forall p :: 0 <= p < |init| ==> init[p] == periods[p];
      match GatherPeriods(init, s, duty)
      case Err(e) => Err(e)
      case Ok(g) =>
        match StepGather(last, s, duty)
        case Err(e) => Err(e)
        case Ok(x) => Ok(g + [x])
  }

  /** Every period that lies on the timeboard is a valid interval. */
  predicate PeriodsValid(n: nat, periods: seq<Result<Interval>>)
  {
    forall p {:trigger periods[p]} :: 0 <= p < |periods| && periods[p].Ok? ==> ValidInterval(n, periods[p].value)
  }

  predicate GatheredValid(n: nat, g: seq<Gathered>)
  {
    forall p {:trigger g[p]} :: 0 <= p < |g| && g[p].Some? ==> ValidInterval(n, g[p].value.0)
  }

  /** One period of the loop. */
  function StepGather<L>(period: Result<Interval>, s: Schedule<L>, duty: string): (r: Result<Gathered>)
    requires period.Ok? ==> ValidInterval(|s.labels|, period.value)
    ensures period == Err(OutOfBounds) ==> r == Ok(None)
    ensures period == Err(VoidInterval) ==> r == Err(UnacceptablePeriod)
    ensures period.Err? && period.error != OutOfBounds && period.error != VoidInterval ==> r == Err(period.error)
    ensures period.Ok? ==> r == (match Count(period.value, s, duty)
                                 case Ok(c) => Ok(Some((period.value, c)))
                                 case Err(e) => Err(e))
  {
    match period
    case Err(OutOfBounds) => Ok(None)
    case Err(VoidInterval) => Err(UnacceptablePeriod)
    case Err(e) => Err(e)
    case Ok(p) =>
      match Count(p, s, duty)
      case Ok(c) => Ok(Some((p, c)))
      case Err(e) => Err(e)
  }

  /** The loop of `count_periods` as it accumulates the per-period lists. */
  method Gather<L>(periods: seq<Result<Interval>>, s: Schedule<L>, duty: string) returns (r: Result<seq<Gathered>>)
    requires PeriodsValid(|s.labels|, periods)
    ensures r == GatherPeriods(periods, s, duty)
  {
    var acc: seq<Gathered> := [];
    var k := 0;
    while k < |periods|
      invariant 0 <= k <= |periods|
      invariant GatherPeriods(periods[..k], s, duty) == Ok(acc)
    {
      assert periods[..k + 1][..k] == periods[..k];
      var x := StepGather(periods[k], s, duty);
      if x.Err? {
        GatherPrefixError(periods, k + 1, s, duty);
        return Err(x.error);
      }
      acc := acc + [x.value];
      k := k + 1;
    }
    assert periods[..k] == periods;
    return Ok(acc);
  }

  lemma GatherPrefixError<L>(periods: seq<Result<Interval>>, k: nat, s: Schedule<L>, duty: string)
    requires PeriodsValid(|s.labels|, periods)
    requires k <= |periods| && GatherPeriods(periods[..k], s, duty).Err?
    ensures GatherPeriods(periods, s, duty) == GatherPeriods(periods[..k], s, duty)
    decreases |periods| - k
  {
    if k < |periods| {
      assert periods[..k + 1][..k] == periods[..k];
      GatherPrefixError(periods, k + 1, s, duty);
    } else {
      assert periods[..k] == periods;
    }
  }

  /** `sum(map(lambda x: x > 0, counts))` over the periods strictly between
      the first and the last; a period outside the timeboard (None) cannot be
      compared and raises TypeError. */
  function PeriodsWithDuty(g: seq<Gathered>): (r: Result<nat>)
    ensures r.Ok? ==> r.value <= |g|
    ensures r.Ok? <==> forall p :: 0 <= p < |g| ==> g[p].Some?
    ensures r.Err? ==> r.error == TypeError
    ensures r.Ok? && (forall p :: 0 <= p < |g| ==> g[p].value.1 > 0) ==> r.value == |g|
    ensures r.Ok? ==> r.value == |Holding(g)|
  {
    if g == [] then Ok(0)
    else
      match PeriodsWithDuty(g[1..])
      case Err(e) => Err(e)
      case Ok(rest) =>
        if g[0].None? then Err(TypeError)
        else
          HoldingCons(g);
          Ok((if g[0].value.1 > 0 then 1 else 0) + rest)
  }

  /** The positions of the gathered periods that hold duty workshifts. */
  ghost function Holding(g: seq<Gathered>): set<int>
  {
    set p | 0 <= p < |g| && g[p].Some? && g[p].value.1 > 0
  }

  /** Moving every member of a set by `d` keeps its size. */
  lemma ShiftCard(a: set<int>, d: int)
    ensures |set p | p in a :: p + d| == |a|
    decreases |a|
  {
    if x :| x in a {
      ShiftCard(a - {x}, d);
      var moved := set p | p in a :: p + d;
      var rest := set p | p in a - {x} :: p + d;
      forall y
        ensures y in moved <==> y in rest + {x + d}
      {
        if y in moved {
          var q :| q in a && y == q + d;
          if q != x {
            assert q in a - {x};
          }
        }
      }
      assert moved == rest + {x + d};
      assert x + d !in rest;
    } else {
      assert forall z :: z !in a;
      assert a == {};
    }
  }

  /** The periods holding duty workshifts in a slice of the gathered list
      are those of the list between the slice's ends. */
  lemma HoldingSlice(g: seq<Gathered>, lo: nat, hi: nat)
    requires lo <= hi <= |g|
    ensures |Holding(g[lo..hi])| == |set p | lo <= p < hi && g[p].Some? && g[p].value.1 > 0|
  {
    var h := Holding(g[lo..hi]);
    var between := set p | lo <= p < hi && g[p].Some? && g[p].value.1 > 0;
    forall y
      ensures y in between <==> y in (set p | p in h :: p + lo)
    {
      if y in between {
        assert g[lo..hi][y - lo] == g[y];
        assert y - lo in h;
      }
      if y in (set p | p in h :: p + lo) {
        var q :| q in h && y == q + lo;
        assert g[lo..hi][q] == g[y];
      }
    }
    assert between == set p | p in h :: p + lo;
    ShiftCard(h, lo);
  }

  /** Peeling off the first gathered period. */
  lemma HoldingCons(g: seq<Gathered>)
    requires g != []
    ensures |Holding(g)| == (if g[0].Some? && g[0].value.1 > 0 then 1 else 0) + |Holding(g[1..])|
  {
    var head: set<int> := if g[0].Some? && g[0].value.1 > 0 then {0} else {};
    var tail := set p | 1 <= p < |g| && g[p].Some? && g[p].value.1 > 0;
    assert Holding(g) == head + tail;
    assert head * tail == {};
    HoldingSlice(g, 1, |g|);
    assert g[1..|g|] == g[1..];
  }

  /** The count of the interval's duty workshifts from position `lo` to `hi`
      (`get_interval((lo, hi)).count(duty)`). */
  function CountBetween<L>(lo: int, hi: int, s: Schedule<L>, duty: string): (r: Result<nat>)
    requires 0 <= lo < |s.labels| && 0 <= hi < |s.labels|
    ensures lo > hi ==> r == Err(VoidInterval)
    ensures lo <= hi ==> r == Count(Interval(lo, hi, false), s, duty)
  {
    if lo > hi then Err(VoidInterval) else Count(Interval(lo, hi, false), s, duty)
  }

  /** The combining step of `count_periods`, given the gathered periods and
      the positions `firstLoc`, `lastLoc` of the periods holding the first
      and the last duty workshifts `fd`, `ld`. */
  function CombinePeriods<L>(i: Interval, s: Schedule<L>, duty: string, g: seq<Gathered>,
                             firstLoc: nat, lastLoc: nat, fd: nat, ld: nat): (r: Result<real>)
    requires ValidInterval(|s.labels|, i) && fd < |s.labels| && ld < |s.labels|
    requires GatheredValid(|s.labels|, g)
    ensures firstLoc >= |g| || lastLoc >= |g| ==> r == Err(IndexError)
  {
    if firstLoc >= |g| || lastLoc >= |g| then Err(IndexError)
    else if lastLoc <= firstLoc then
      // the last duty workshift is inside the first period
      match Count(i, s, duty)
      case Err(e) => Err(e)
      case Ok(c) =>
        if g[firstLoc].None? then Err(TypeError)
        else if g[firstLoc].value.1 == 0 then Err(ZeroDivision)
        else Ok(c as real / g[firstLoc].value.1 as real)
    else if g[firstLoc].None? then Err(AttributeError)
    else
      var fp, len1 := g[firstLoc].value.0, g[firstLoc].value.1;
      assert ValidInterval(|s.labels|, fp);
      match CountBetween(fd, fp.last, s, duty)
      case Err(e) => Err(e)
      case Ok(c1) =>
        if len1 == 0 then Err(ZeroDivision)
        else if g[lastLoc].None? then Err(AttributeError)
        else
          var lp, len2 := g[lastLoc].value.0, g[lastLoc].value.1;
          assert ValidInterval(|s.labels|, lp);
          match CountBetween(lp.first, ld, s, duty)
          case Err(e) => Err(e)
          case Ok(c2) =>
            if len2 == 0 then Err(ZeroDivision)
            else
              var whole := if lastLoc - firstLoc - 1 > 0 then PeriodsWithDuty(g[firstLoc + 1..lastLoc]) else Ok(0);
              match whole
              case Err(e) => Err(e)
              case Ok(m) => Ok(c1 as real / len1 as real + c2 as real / len2 as real + m as real)
  }

  /** `count_periods`: a void interval counts 0.0 periods; otherwise an
      unsupported frequency is refused, an interval without duty workshifts
      counts 0.0, and the gathered periods are combined.  `periods`,
      `firstLoc` and `lastLoc` stand for the calendar computations. */
  method CountPeriods<L>(i: Interval, s: Schedule<L>, duty: string, freq: string,
                         periods: seq<Result<Interval>>, firstLoc: nat, lastLoc: nat) returns (r: Result<real>)
    requires Built(s) && ValidInterval(|s.labels|, i)
    requires PeriodsValid(|s.labels|, periods)
    ensures r == CountPeriodsOf(i, s, duty, freq, periods, firstLoc, lastLoc)
  {
    if i.isVoid {
      return Ok(0.0);
    }
    if !SupportedPeriod(freq) {
      return Err(UnacceptablePeriod);
    }
    var fd := First(i, s, duty);
    match fd
    case Err(e) =>
      return if e == OutOfBounds then Ok(0.0) else Err(e);
    case Ok(_) =>
    var ld := Last(i, s, duty);
    match ld
    case Err(e) =>
      return if e == OutOfBounds then Ok(0.0) else Err(e);
    case Ok(_) =>
    var g := Gather(periods, s, duty);
    match g
    case Err(e) =>
      return Err(e);
    case Ok(gathered) =>
    NthBelow(i, s, duty, 0);
    NthBelow(i, s, duty, -1);
    GatherKeepsValid(periods, s, duty);
    r := CombinePeriods(i, s, duty, gathered, firstLoc, lastLoc, fd.value, ld.value);
  }

  /** The specification of `count_periods`. */
  function CountPeriodsOf<L>(i: Interval, s: Schedule<L>, duty: string, freq: string,
                             periods: seq<Result<Interval>>, firstLoc: nat, lastLoc: nat): (r: Result<real>)
    requires Built(s) && ValidInterval(|s.labels|, i)
    requires PeriodsValid(|s.labels|, periods)
    ensures i.isVoid ==> r == Ok(0.0)
    ensures !i.isVoid && !SupportedPeriod(freq) ==> r == Err(UnacceptablePeriod)
    ensures !i.isVoid && SupportedPeriod(freq) && First(i, s, duty) == Err(OutOfBounds) ==> r == Ok(0.0)
    ensures (!i.isVoid && SupportedPeriod(freq) && First(i, s, duty).Ok? && Last(i, s, duty).Ok?
             && GatherPeriods(periods, s, duty).Err?) ==> r == Err(GatherPeriods(periods, s, duty).error)
  {
    if i.isVoid then Ok(0.0)
    else if !SupportedPeriod(freq) then Err(UnacceptablePeriod)
    else
      match First(i, s, duty)
      case Err(e) => if e == OutOfBounds then Ok(0.0) else Err(e)
      case Ok(fd) =>
        match Last(i, s, duty)
        case Err(e) => if e == OutOfBounds then Ok(0.0) else Err(e)
        case Ok(ld) =>
          match GatherPeriods(periods, s, duty)
          case Err(e) => Err(e)
          case Ok(g) =>
            NthBelow(i, s, duty, 0);
            NthBelow(i, s, duty, -1);
            GatherKeepsValid(periods, s, duty);
            CombinePeriods(i, s, duty, g, firstLoc, lastLoc, fd, ld)
  }

  lemma NthBelow<L>(i: Interval, s: Schedule<L>, duty: string, n: int)
    requires Built(s) && ValidInterval(|s.labels|, i) && Nth(i, s, duty, n).Ok?
    ensures Nth(i, s, duty, n).value < |s.labels|
  {
    DutyIdxIncreasing(s, duty);
  }

  lemma GatherKeepsValid<L>(periods: seq<Result<Interval>>, s: Schedule<L>, duty: string)
    requires PeriodsValid(|s.labels|, periods)
    requires GatherPeriods(periods, s, duty).Ok?
    ensures GatheredValid(|s.labels|, GatherPeriods(periods, s, duty).value)
  {
  }

  /** An interval made of whole periods from `firstLoc` to `lastLoc`, each
      holding duty workshifts, counts exactly that many periods. */
  lemma WholePeriodsCount<L>(i: Interval, s: Schedule<L>, duty: string, g: seq<Gathered>,
                             firstLoc: nat, lastLoc: nat, fd: nat, ld: nat)
    requires ValidInterval(|s.labels|, i) && fd < |s.labels| && ld < |s.labels|
    requires GatheredValid(|s.labels|, g)
    requires firstLoc < lastLoc < |g|
    requires forall p :: firstLoc <= p <= lastLoc ==> g[p].Some? && g[p].value.1 > 0
    requires fd <= g[firstLoc].value.0.last && g[lastLoc].value.0.first <= ld
    requires CountBetween(fd, g[firstLoc].value.0.last, s, duty) == Ok(g[firstLoc].value.1)
    requires CountBetween(g[lastLoc].value.0.first, ld, s, duty) == Ok(g[lastLoc].value.1)
    ensures CombinePeriods(i, s, duty, g, firstLoc, lastLoc, fd, ld) == Ok((lastLoc - firstLoc + 1) as real)
  {
    var mid := g[firstLoc + 1..lastLoc];
    assert forall p :: 0 <= p < |mid| ==> mid[p] == g[firstLoc + 1 + p];
    assert PeriodsWithDuty(mid) == Ok(lastLoc - firstLoc - 1);
    RatioBounds(g[firstLoc].value.1, g[firstLoc].value.1);
    RatioBounds(g[lastLoc].value.1, g[lastLoc].value.1);
  }

  /** An interval whose duty workshifts all fall in one period counts the
      share of that period's duty workshifts it holds: 1.0 when it holds all. */
  lemma SinglePeriodCount<L>(i: Interval, s: Schedule<L>, duty: string, g: seq<Gathered>,
                             loc: nat, fd: nat, ld: nat)
    requires ValidInterval(|s.labels|, i) && !i.isVoid && DutyIdx(s, duty).Ok?
    requires fd < |s.labels| && ld < |s.labels| && GatheredValid(|s.labels|, g)
    requires loc < |g| && g[loc].Some? && g[loc].value.1 > 0
    requires Count(i, s, duty).value <= g[loc].value.1
    ensures CombinePeriods(i, s, duty, g, loc, loc, fd, ld)
            == Ok(Count(i, s, duty).value as real / g[loc].value.1 as real)
    ensures 0.0 <= CombinePeriods(i, s, duty, g, loc, loc, fd, ld).value <= 1.0
    ensures Count(i, s, duty).value == g[loc].value.1 ==> CombinePeriods(i, s, duty, g, loc, loc, fd, ld) == Ok(1.0)
  {
    RatioBounds(Count(i, s, duty).value, g[loc].value.1);
  }

  /** An interval spanning several periods counts the share of the first
      period's duty workshifts from `fd` on, plus the share of the last
      period's duty workshifts up to `ld`, plus one for every period in
      between that holds duty workshifts; a period in between that lies
      outside the timeboard raises TypeError. */
  lemma {:induction false} CombineSeveralPeriods<L>(i: Interval, s: Schedule<L>, duty: string, g: seq<Gathered>,
                                                   firstLoc: nat, lastLoc: nat, fd: nat, ld: nat)
    requires ValidInterval(|s.labels|, i) && fd < |s.labels| && ld < |s.labels|
    requires GatheredValid(|s.labels|, g)
    requires firstLoc < lastLoc < |g|
    requires g[firstLoc].Some? && g[firstLoc].value.1 > 0
    requires g[lastLoc].Some? && g[lastLoc].value.1 > 0
    requires CountBetween(fd, g[firstLoc].value.0.last, s, duty).Ok?
    requires CountBetween(g[lastLoc].value.0.first, ld, s, duty).Ok?
    ensures (forall p :: firstLoc < p < lastLoc ==> g[p].Some?) ==>
              var c1, len1 := CountBetween(fd, g[firstLoc].value.0.last, s, duty).value, g[firstLoc].value.1;
              var c2, len2 := CountBetween(g[lastLoc].value.0.first, ld, s, duty).value, g[lastLoc].value.1;
              var m := |set p | firstLoc < p < lastLoc && g[p].Some? && g[p].value.1 > 0|;
              CombinePeriods(i, s, duty, g, firstLoc, lastLoc, fd, ld)
              == Ok(c1 as real / len1 as real + c2 as real / len2 as real + m as real)
    ensures (exists p :: firstLoc < p < lastLoc && g[p].None?) ==>
              CombinePeriods(i, s, duty, g, firstLoc, lastLoc, fd, ld) == Err(TypeError)
  {
    MiddlePeriods(g, firstLoc, lastLoc);
  }

  /** The periods strictly between the first and the last: one for each that
      holds duty workshifts, or TypeError when one lies outside the timeboard. */
  lemma MiddlePeriods(g: seq<Gathered>, firstLoc: nat, lastLoc: nat)
    requires firstLoc < lastLoc <= |g|
    ensures var whole := if lastLoc - firstLoc - 1 > 0 then PeriodsWithDuty(g[firstLoc + 1..lastLoc]) else Ok(0);
            && ((forall p :: firstLoc < p < lastLoc ==> g[p].Some?) ==>
                  whole == Ok(|set p | firstLoc < p < lastLoc && g[p].Some? && g[p].value.1 > 0|))
            && ((exists p :: firstLoc < p < lastLoc && g[p].None?) ==> whole == Err(TypeError))
  {
    var mid := g[firstLoc + 1..lastLoc];
    assert forall p :: 0 <= p < |mid| ==> mid[p] == g[firstLoc + 1 + p];
    HoldingSlice(g, firstLoc + 1, lastLoc);
    assert (set p | firstLoc < p < lastLoc && g[p].Some? && g[p].value.1 > 0)
           == (set p | firstLoc + 1 <= p < lastLoc && g[p].Some? && g[p].value.1 > 0);
  }

  /** An interval without workshifts of a valid duty counts no period. */
  lemma CountPeriodsNoDuty<L>(i: Interval, s: Schedule<L>, duty: string, freq: string,
                              periods: seq<Result<Interval>>, firstLoc: nat, lastLoc: nat)
    requires Built(s) && ValidInterval(|s.labels|, i) && PeriodsValid(|s.labels|, periods)
    requires SupportedPeriod(freq) && DutyIdx(s, duty).Ok?
    requires i.isVoid || DutyIn(DutyIdx(s, duty).value, i) == {}
    ensures CountPeriodsOf(i, s, duty, freq, periods, firstLoc, lastLoc) == Ok(0.0)
  {
    if !i.isVoid {
      FirstAndLastAreExtremes(i, s, duty);
    }
  }
}
