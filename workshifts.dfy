// Workshifts (timeboard/workshift.py: `Workshift`).
//
// A workshift is a position on the timeline of a schedule.  Stepping
// through workshifts of a duty reads the schedule's duty indices.

module Workshifts {
  import opened Errors
  import opened Indexing
  import opened Bands
  import opened Schedules

  /** `Workshift.__init__`: the location must be a position of the timeline. */
  function MakeWorkshift<L>(s: Schedule<L>, loc: nat): (r: Result<nat>)
    ensures r.Ok? <==> loc < |s.labels|
    ensures r.Ok? ==> r.value == loc
    ensures r.Err? ==> r.error == OutOfBounds
  {
    if loc < |s.labels| then Ok(loc) else Err(OutOfBounds)
  }

  /** `_get_duty_index`: 'same' and 'alt' select relative to the workshift's own duty. */
  function GetDutyIndex<L>(s: Schedule<L>, loc: nat, duty: string): (r: Result<seq<nat>>)
    requires loc < |s.labels|
    ensures duty == "on" || (duty == "same" && IsOnDuty(s, loc)) || (duty == "alt" && !IsOnDuty(s, loc))
            ==> r == Ok(s.onDuty)
    ensures duty == "off" || (duty == "same" && !IsOnDuty(s, loc)) || (duty == "alt" && IsOnDuty(s, loc))
            ==> r == Ok(s.offDuty)
    ensures duty == "any" ==> r == Ok(Index(s))
    ensures r.Err? <==> duty !in ["on", "off", "same", "alt", "any"]
    ensures r.Err? ==> r.error == ValueError
  {
    var on := IsOnDuty(s, loc);
    if duty == "on" || (duty == "same" && on) || (duty == "alt" && !on) then Ok(s.onDuty)
    else if duty == "off" || (duty == "same" && !on) || (duty == "alt" && on) then Ok(s.offDuty)
    else if duty == "any" then Ok(Index(s))
    else Err(ValueError)
  }

  /** The 'same' index holds the workshift itself, the 'alt' index does not;
      every duty index is ascending. */
  lemma SameAndAlt<L>(s: Schedule<L>, loc: nat)
    requires Built(s) && loc < |s.labels|
    ensures loc in GetDutyIndex(s, loc, "same").value
    ensures loc !in GetDutyIndex(s, loc, "alt").value
    ensures forall duty :: GetDutyIndex(s, loc, duty).Ok? ==> Increasing(GetDutyIndex(s, loc, duty).value)
  {
    SchedulePartition(s);
  }

  /** Entries of a duty index of a built schedule are positions of its timeline. */
  lemma DutyIndexPositions<L>(s: Schedule<L>, loc: nat, duty: string)
    requires Built(s) && loc < |s.labels| && GetDutyIndex(s, loc, duty).Ok?
    ensures Increasing(GetDutyIndex(s, loc, duty).value)
    ensures forall k :: 0 <= k < |GetDutyIndex(s, loc, duty).value| ==> GetDutyIndex(s, loc, duty).value[k] < |s.labels|
  {
  }

  // ----- rollforward -----

  /** The lookup of `rollforward` in a duty index: from the first entry at
      or after `loc` (`searchsorted`), the entry `steps` further on; None
      (OutOfBounds) when there is no such entry. */
  function ForwardIn(idx: seq<nat>, loc: nat, steps: int): (r: Option<nat>)
    ensures r.Some? ==> r.value in idx
  {
    var i := SearchLeft(idx, loc);
    if i == |idx| || i + steps < 0 || i + steps >= |idx| then None else Some(idx[i + steps])
  }

  /** A found lookup is a workshift; a failed one is OutOfBounds. */
  function AsWorkshift(p: Option<nat>): Result<nat>
  {
    if p.None? then Err(OutOfBounds) else Ok(p.value)
  }

  /** `rollforward(steps, duty)`: the zero step is the first duty workshift
      at or after `loc`; from there `steps` duty workshifts onwards (or back,
      for negative `steps`). */
  function Rollforward<L>(s: Schedule<L>, loc: nat, steps: int, duty: string): (r: Result<nat>)
    requires loc < |s.labels|
    ensures r.Err? ==> r.error == OutOfBounds || (r.error == ValueError && GetDutyIndex(s, loc, duty).Err?)
    ensures GetDutyIndex(s, loc, duty).Err? ==> r == Err(ValueError)
  {
    match GetDutyIndex(s, loc, duty)
    case Err(e) => Err(e)
    case Ok(idx) =>
      var p := ForwardIn(idx, loc, steps);
      if p.None? then Err(OutOfBounds) else MakeWorkshift(s, p.value)
  }

  /** On a built schedule every found entry is a workshift of the timeline,
      so `rollforward` is the lookup in the duty index. */
  lemma RollforwardIsLookup<L>(s: Schedule<L>, loc: nat, steps: int, duty: string)
    requires Built(s) && loc < |s.labels| && GetDutyIndex(s, loc, duty).Ok?
    ensures Rollforward(s, loc, steps, duty) == AsWorkshift(ForwardIn(GetDutyIndex(s, loc, duty).value, loc, steps))
  {
    DutyIndexPositions(s, loc, duty);
  }

  /** The zero step of the lookup is the earliest entry at or after `loc`;
      it exists exactly when some entry is at least `loc`, and is `loc`
      itself when `loc` is an entry. */
  lemma ForwardZero(idx: seq<nat>, loc: nat)
    requires Increasing(idx)
    ensures ForwardIn(idx, loc, 0).Some? <==> exists k :: 0 <= k < |idx| && idx[k] >= loc
    ensures ForwardIn(idx, loc, 0).Some? ==>
              && ForwardIn(idx, loc, 0).value >= loc
              && forall x :: x in idx && x >= loc ==> ForwardIn(idx, loc, 0).value <= x
    ensures loc in idx ==> ForwardIn(idx, loc, 0) == Some(loc)
  {
    SearchLeftSorted(idx, loc);
  }

  /** One more step of the lookup moves to the next entry of the index. */
  lemma ForwardStep(idx: seq<nat>, loc: nat, steps: int)
    requires Increasing(idx)
    requires ForwardIn(idx, loc, steps).Some? && ForwardIn(idx, loc, steps + 1).Some?
    ensures ForwardIn(idx, loc, steps).value < ForwardIn(idx, loc, steps + 1).value
    ensures forall x :: x in idx ==> !(ForwardIn(idx, loc, steps).value < x < ForwardIn(idx, loc, steps + 1).value)
  {
    NothingBetween(idx, SearchLeft(idx, loc) + steps);
  }

  /** The zero step of `rollforward` is the earliest duty workshift at or
      after `loc`, hence `loc` itself when it has the duty; it fails exactly
      when there is none. */
  lemma RollforwardZero<L>(s: Schedule<L>, loc: nat, duty: string)
    requires Built(s) && loc < |s.labels| && GetDutyIndex(s, loc, duty).Ok?
    ensures var idx := GetDutyIndex(s, loc, duty).value;
            && (Rollforward(s, loc, 0, duty).Ok? <==> exists k :: 0 <= k < |idx| && idx[k] >= loc)
            && (Rollforward(s, loc, 0, duty).Ok? ==>
                  && Rollforward(s, loc, 0, duty).value in idx
                  && Rollforward(s, loc, 0, duty).value >= loc
                  && forall x :: x in idx && x >= loc ==> Rollforward(s, loc, 0, duty).value <= x)
            && (loc in idx ==> Rollforward(s, loc, 0, duty) == Ok(loc))
  {
    var idx := GetDutyIndex(s, loc, duty).value;
    DutyIndexPositions(s, loc, duty);
    RollforwardIsLookup(s, loc, 0, duty);
    ForwardZero(idx, loc);
  }

  /** One more step lands on the next duty workshift: nothing of the duty
      lies strictly between consecutive results. */
  lemma RollforwardStep<L>(s: Schedule<L>, loc: nat, steps: int, duty: string)
    requires Built(s) && loc < |s.labels|
    requires Rollforward(s, loc, steps, duty).Ok? && Rollforward(s, loc, steps + 1, duty).Ok?
    ensures GetDutyIndex(s, loc, duty).Ok?
    ensures Rollforward(s, loc, steps, duty).value < Rollforward(s, loc, steps + 1, duty).value
    ensures forall x :: x in GetDutyIndex(s, loc, duty).value ==>
              !(Rollforward(s, loc, steps, duty).value < x < Rollforward(s, loc, steps + 1, duty).value)
  {
    var idx := GetDutyIndex(s, loc, duty).value;
    DutyIndexPositions(s, loc, duty);
    RollforwardIsLookup(s, loc, steps, duty);
    RollforwardIsLookup(s, loc, steps + 1, duty);
    ForwardStep(idx, loc, steps);
  }

  /** Consecutive entries of an ascending list have nothing of it between them. */
  lemma NothingBetween(idx: seq<int>, j: nat)
    requires Increasing(idx) && j + 1 < |idx|
    ensures idx[j] < idx[j + 1]
    ensures forall x :: x in idx ==> !(idx[j] < x < idx[j + 1])
  {
  }

  // ----- rollback -----

  /** The last position of `idx` whose entry is at most `x`, scanning from
      the end; -1 when there is none. */
  function LastAtMost(idx: seq<int>, x: int): (r: int)
    ensures -1 <= r < |idx|
    ensures r >= 0 ==> idx[r] <= x
    ensures forall k :: r < k < |idx| ==> idx[k] > x
  {
    if idx == [] then -1
    else if idx[|idx| - 1] <= x then |idx| - 1
    else LastAtMost(idx[..|idx| - 1], x)
  }

  /** In an ascending list the backward scan stops before the right search. */
  lemma LastAtMostSorted(idx: seq<int>, x: int)
    requires Increasing(idx)
    ensures LastAtMost(idx, x) == SearchRight(idx, x) - 1
  {
    SearchRightSorted(idx, x);
    var r := LastAtMost(idx, x);
    assert r + 1 < |idx| ==> idx[r + 1] > x;
    assert r >= 0 ==> idx[r] <= x;
  }

  /** The lookup of `rollback` in a duty index: from the last entry at or
      before `loc`, the entry `steps` further back; None (OutOfBounds) when
      there is no such entry. */
  function BackIn(idx: seq<nat>, loc: nat, steps: int): (r: Option<nat>)
    ensures r.Some? ==> r.value in idx
  {
    var i := LastAtMost(idx, loc);
    if i == -1 || i - steps < 0 || i - steps >= |idx| then None else Some(idx[i - steps])
  }

  /** `rollback(steps, duty)`: the zero step is the last duty workshift at or
      before `loc`; from there `steps` duty workshifts back (or onwards, for
      negative `steps`). */
  function RollbackOf<L>(s: Schedule<L>, loc: nat, steps: int, duty: string): (r: Result<nat>)
    requires loc < |s.labels|
    ensures r.Err? ==> r.error == OutOfBounds || (r.error == ValueError && GetDutyIndex(s, loc, duty).Err?)
    ensures GetDutyIndex(s, loc, duty).Err? ==> r == Err(ValueError)
  {
    match GetDutyIndex(s, loc, duty)
    case Err(e) => Err(e)
    case Ok(idx) =>
      var p := BackIn(idx, loc, steps);
      if p.None? then Err(OutOfBounds) else MakeWorkshift(s, p.value)
  }

  /** The while loop of `rollback`: scan the index down from its end to the
      last entry at most `x`. */
  method BackScan(idx: seq<int>, x: int) returns (i: int)
    ensures i == LastAtMost(idx, x)
  {
    i := |idx| - 1;
    while i >= 0 && idx[i] > x
      invariant -1 <= i < |idx|
      invariant LastAtMost(idx, x) == LastAtMost(idx[..i + 1], x)
    {
      assert idx[..i + 1][..i] == idx[..i];
      i := i - 1;
    }
    assert i >= 0 ==> idx[..i + 1][i] == idx[i];
  }

  /** `rollback`, with the backward scan of the duty index. */
  method Rollback<L>(s: Schedule<L>, loc: nat, steps: int, duty: string) returns (r: Result<nat>)
    requires loc < |s.labels|
    ensures r == RollbackOf(s, loc, steps, duty)
  {
    var found := GetDutyIndex(s, loc, duty);
    if found.Err? {
      return Err(found.error);
    }
    var idx := found.value;
    var i := BackScan(idx, loc);
    if i == -1 || i - steps < 0 || i - steps >= |idx| {
      assert BackIn(idx, loc, steps).None?;
      return Err(OutOfBounds);
    }
    assert BackIn(idx, loc, steps) == Some(idx[i - steps]);
    return MakeWorkshift(s, idx[i - steps]);
  }

  /** On a built schedule every found entry is a workshift of the timeline,
      so `rollback` is the lookup in the duty index. */
  lemma RollbackIsLookup<L>(s: Schedule<L>, loc: nat, steps: int, duty: string)
    requires Built(s) && loc < |s.labels| && GetDutyIndex(s, loc, duty).Ok?
    ensures RollbackOf(s, loc, steps, duty) == AsWorkshift(BackIn(GetDutyIndex(s, loc, duty).value, loc, steps))
  {
    DutyIndexPositions(s, loc, duty);
  }

  /** In an ascending list, the backward scan finds the latest entry at most
      `x`, which is `x` itself when present. */
  lemma LastAtMostIsLatest(idx: seq<int>, x: int)
    requires Increasing(idx)
    ensures LastAtMost(idx, x) >= 0 <==> exists k :: 0 <= k < |idx| && idx[k] <= x
    ensures LastAtMost(idx, x) >= 0 ==> forall y :: y in idx && y <= x ==> y <= idx[LastAtMost(idx, x)]
    ensures x in idx ==> idx[LastAtMost(idx, x)] == x
  {
    var i := LastAtMost(idx, x);
    if x in idx {
      var k :| 0 <= k < |idx| && idx[k] == x;
      assert k <= i;
    }
  }

  /** The zero step of `rollback` is the latest duty workshift at or before
      `loc`, hence `loc` itself when it has the duty. */
  lemma RollbackZero<L>(s: Schedule<L>, loc: nat, duty: string)
    requires Built(s) && loc < |s.labels| && GetDutyIndex(s, loc, duty).Ok?
    ensures var idx := GetDutyIndex(s, loc, duty).value;
            && (RollbackOf(s, loc, 0, duty).Ok? <==> exists k :: 0 <= k < |idx| && idx[k] <= loc)
            && (RollbackOf(s, loc, 0, duty).Ok? ==>
                  && RollbackOf(s, loc, 0, duty).value in idx
                  && RollbackOf(s, loc, 0, duty).value <= loc
                  && forall x :: x in idx && x <= loc ==> x <= RollbackOf(s, loc, 0, duty).value)
            && (loc in idx ==> RollbackOf(s, loc, 0, duty) == Ok(loc))
  {
    var idx := GetDutyIndex(s, loc, duty).value;
    DutyIndexPositions(s, loc, duty);
    RollbackIsLookup(s, loc, 0, duty);
    LastAtMostIsLatest(idx, loc);
  }

  /** The zero steps of the two lookups: from a value not in the index the
      forward lookup one step back is the backward zero step, one entry after
      the backward lookup of one step; from an entry the two coincide. */
  lemma ForwardBackIn(idx: seq<nat>, loc: nat)
    requires Increasing(idx)
    requires ForwardIn(idx, loc, -1).Some? && BackIn(idx, loc, 1).Some?
    ensures loc !in idx ==> ForwardIn(idx, loc, -1) == BackIn(idx, loc, 0)
                            && BackIn(idx, loc, 1).value < ForwardIn(idx, loc, -1).value
    ensures loc in idx ==> ForwardIn(idx, loc, -1) == BackIn(idx, loc, 1)
  {
    LastAtMostSorted(idx, loc);
    SearchLeftAtMostRight(idx, loc);
  }

  /** The zero-step search keeps its own direction whatever the sign of
      `steps`: from a workshift without the duty, `rollforward(-1)` is the
      zero step of `rollback`, one duty workshift later than `rollback(1)`;
      from a workshift with the duty the two agree. */
  lemma ForwardBackOneStep<L>(s: Schedule<L>, loc: nat, duty: string)
    requires Built(s) && loc < |s.labels| && GetDutyIndex(s, loc, duty).Ok?
    requires Rollforward(s, loc, -1, duty).Ok? && RollbackOf(s, loc, 1, duty).Ok?
    ensures loc !in GetDutyIndex(s, loc, duty).value ==>
              && Rollforward(s, loc, -1, duty) == RollbackOf(s, loc, 0, duty)
              && RollbackOf(s, loc, 1, duty).value < Rollforward(s, loc, -1, duty).value
    ensures loc in GetDutyIndex(s, loc, duty).value ==>
              Rollforward(s, loc, -1, duty) == RollbackOf(s, loc, 1, duty)
  {
    var idx := GetDutyIndex(s, loc, duty).value;
    DutyIndexPositions(s, loc, duty);
    RollforwardIsLookup(s, loc, -1, duty);
    RollbackIsLookup(s, loc, 0, duty);
    RollbackIsLookup(s, loc, 1, duty);
    ForwardBackIn(idx, loc);
  }

  // ----- arithmetic -----

  /** The right operand of `+` and `-`: an integer, or anything else. */
  datatype Operand = IntOperand(n: int) | OtherOperand

  /** What `__add__`/`__sub__` give: a workshift (or its error), or
      NotImplemented for a non-integer operand. */
  datatype Arith = Value(result: Result<nat>) | NotImplemented

  /** `ws + n` is `ws.rollforward(n, duty='on')`. */
  function Add<L>(s: Schedule<L>, loc: nat, other: Operand): (r: Arith)
    requires loc < |s.labels|
    ensures other.OtherOperand? <==> r.NotImplemented?
    ensures other.IntOperand? ==> r == Value(Rollforward(s, loc, other.n, "on"))
  {
    match other
    case IntOperand(n) => Value(Rollforward(s, loc, n, "on"))
    case OtherOperand => NotImplemented
  }

  /** `ws - n` is `ws.rollback(n, duty='on')`. */
  function Sub<L>(s: Schedule<L>, loc: nat, other: Operand): (r: Arith)
    requires loc < |s.labels|
    ensures other.OtherOperand? <==> r.NotImplemented?
    ensures other.IntOperand? ==> r == Value(RollbackOf(s, loc, other.n, "on"))
  {
    match other
    case IntOperand(n) => Value(RollbackOf(s, loc, n, "on"))
    case OtherOperand => NotImplemented
  }

  /** From an on-duty workshift, subtracting what was added comes back:
      `(ws + n) - n == ws`. */
  lemma AddThenSub<L>(s: Schedule<L>, loc: nat, n: int)
    requires Built(s) && loc < |s.labels| && IsOnDuty(s, loc)
    requires Add(s, loc, IntOperand(n)).result.Ok?
    ensures Add(s, loc, IntOperand(n)).result.value < |s.labels|
    ensures Sub(s, Add(s, loc, IntOperand(n)).result.value, IntOperand(n)) == Value(Ok(loc))
  {
    SchedulePartition(s);
    var idx := s.onDuty;
    assert GetDutyIndex(s, loc, "on") == Ok(idx);
    RollforwardIsLookup(s, loc, n, "on");
    var p := ForwardIn(idx, loc, n).value;
    assert Add(s, loc, IntOperand(n)).result == Ok(p);
    assert GetDutyIndex(s, p, "on") == Ok(idx);
    RollbackIsLookup(s, p, n, "on");
    RoundTrip(idx, loc, n);
  }

  /** Stepping `n` entries on from an entry and back again returns to it. */
  lemma RoundTrip(idx: seq<nat>, loc: nat, n: int)
    requires Increasing(idx) && loc in idx
    requires ForwardIn(idx, loc, n).Some?
    ensures BackIn(idx, ForwardIn(idx, loc, n).value, n) == Some(loc)
  {
    var i := SearchLeft(idx, loc);
    SearchLeftSorted(idx, loc);
    var k :| 0 <= k < |idx| && idx[k] == loc;
    assert k == i;
    LastAtMostIsLatest(idx, idx[i + n]);
  }

  // ----- worktime -----

  /** `worktime(duty)`: 0 when the workshift does not have the duty;
      otherwise its label (`number` is the label as a number, None when it
      is not one) or its duration in base units, as the timeboard's
      `worktimeSource` says. */
  function Worktime<L>(s: Schedule<L>, b: Band, loc: nat, duty: string, worktimeSource: string,
                       number: Option<real>): (r: Result<real>)
    requires loc < |s.labels| && ValidBand(b) && |b.starts| == |s.labels|
    ensures r.Err? <==> (duty !in ["on", "off", "any"]
                        || (DutyFlag(s, loc, duty)
                            && (worktimeSource !in ["labels", "duration"] || (worktimeSource == "labels" && number.None?))))
    ensures duty !in ["on", "off", "any"] ==> r == Err(ValueError)
    ensures duty in ["on", "off", "any"] && !DutyFlag(s, loc, duty) ==> r == Ok(0.0)
    ensures duty in ["on", "off", "any"] && DutyFlag(s, loc, duty) ==>
              && (worktimeSource == "labels" ==> r == (if number.None? then Err(TypeError) else Ok(number.value)))
              && (worktimeSource == "duration" ==> r == Ok(WsDuration(b, loc) as real))
              && (worktimeSource !in ["labels", "duration"] ==> r == Err(RuntimeError))
  {
    if duty !in ["on", "off", "any"] then Err(ValueError)
    else if !DutyFlag(s, loc, duty) then Ok(0.0)
    else if worktimeSource == "labels" then
      if number.None? then Err(TypeError) else Ok(number.value)
    else if worktimeSource == "duration" then Ok(WsDuration(b, loc) as real)
    else Err(RuntimeError)
  }

  /** `duty_flags[duty]`: whether the workshift has the duty. */
  predicate DutyFlag<L>(s: Schedule<L>, loc: nat, duty: string)
    requires loc < |s.labels|
  {
    if duty == "on" then IsOnDuty(s, loc)
    else if duty == "off" then !IsOnDuty(s, loc)
    else duty == "any"
  }

  /** The on-duty and the off-duty work time of a workshift add up to its
      work time whatever the duty. */
  lemma WorktimeSplits<L>(s: Schedule<L>, b: Band, loc: nat, worktimeSource: string, number: Option<real>)
    requires loc < |s.labels| && ValidBand(b) && |b.starts| == |s.labels|
    requires Worktime(s, b, loc, "any", worktimeSource, number).Ok?
    ensures Worktime(s, b, loc, "on", worktimeSource, number).Ok?
    ensures Worktime(s, b, loc, "off", worktimeSource, number).Ok?
    ensures Worktime(s, b, loc, "on", worktimeSource, number).value
            + Worktime(s, b, loc, "off", worktimeSource, number).value
            == Worktime(s, b, loc, "any", worktimeSource, number).value
  {
  }
}
