// The workshift band of a timeline (timeboard/core.py: `_Timeline.__init__`
// after organizing, `_get_ws_first_baseunit`, `_get_ws_last_baseunit`,
// `get_ws_duration`, `get_ws_start_time`, `get_ws_end_time`,
// `get_ws_ref_time`, `get_ws_position`).
//
// A workshift is a run of base units; the band records the base-unit
// position where each workshift starts (the positions whose compound-mask
// entry is still 1 after organizing).

module Bands {
  import opened Errors
  import opened Indexing
  import opened Frames

  /** `units` base units; workshift `j` starts at base unit `starts[j]`. */
  datatype Band = Band(units: nat, starts: seq<nat>)

  predicate ValidBand(b: Band)
  {
    && |b.starts| >= 1
    && b.starts[0] == 0
    && Increasing(b.starts)
    && (forall k :: 0 <= k < |b.starts| ==> b.starts[k] < b.units)
  }

  /** The band built from the compound mask: `nonzero(mask)`. */
  function BandOf(mask: seq<bool>): (b: Band)
    requires |mask| >= 1 && mask[0]
    ensures ValidBand(b)
    ensures b.units == |mask|
    ensures forall u :: 0 <= u < |mask| ==> (u in b.starts <==> mask[u])
  {
    var starts := Where(mask, true);
    assert 0 in starts;
    assert forall k :: 0 <= k < |starts| ==> starts[k] >= 0;
    Band(|mask|, starts)
  }

  /** `_get_ws_first_baseunit`. */
  function WsFirst(b: Band, j: nat): nat
    requires ValidBand(b) && j < |b.starts|
  {
    b.starts[j]
  }

  /** `_get_ws_last_baseunit`: the base unit before the next workshift, or the
      last base unit for the last workshift. */
  function WsLast(b: Band, j: nat): (u: nat)
    requires ValidBand(b) && j < |b.starts|
    ensures WsFirst(b, j) <= u < b.units
  {
    if j + 1 < |b.starts| then b.starts[j + 1] - 1 else b.units - 1
  }

  /** `get_ws_duration`: the number of base units in workshift `j`. */
  function WsDuration(b: Band, j: nat): (d: nat)
    requires ValidBand(b) && j < |b.starts|
    ensures d >= 1
  {
    WsLast(b, j) - WsFirst(b, j) + 1
  }

  /** Workshifts follow each other without gap or overlap. */
  lemma WorkshiftsAdjacent(b: Band, j: nat)
    requires ValidBand(b) && j + 1 < |b.starts|
    ensures WsLast(b, j) + 1 == WsFirst(b, j + 1)
  {
  }

  lemma WorkshiftsOrdered(b: Band, i: nat, j: nat)
    requires ValidBand(b) && i < j < |b.starts|
    ensures WsLast(b, i) < WsFirst(b, j)
  {
  }

  /** The workshift containing base unit `u` (the frame band entry of `u`). */
  function Containing(b: Band, u: nat): (j: nat)
    requires ValidBand(b) && u < b.units
    ensures j < |b.starts|
    ensures WsFirst(b, j) <= u <= WsLast(b, j)
  {
    SearchRightSorted(b.starts, u);
    SearchRight(b.starts, u) - 1
  }

  /** Every base unit belongs to exactly one workshift. */
  lemma ContainingUnique(b: Band, u: nat, j: nat)
    requires ValidBand(b) && u < b.units && j < |b.starts|
    requires WsFirst(b, j) <= u <= WsLast(b, j)
    ensures Containing(b, u) == j
  {
    var c := Containing(b, u);
    if c < j {
      WorkshiftsOrdered(b, c, j);
    }
  }

  /** Sum of the durations of the listed workshifts. */
  function TotalDuration(b: Band, js: seq<nat>): nat
    requires ValidBand(b)
    requires forall k :: 0 <= k < |js| ==> js[k] < |b.starts|
  {
    if js == [] then 0 else TotalDuration(b, js[..|js| - 1]) + WsDuration(b, js[|js| - 1])
  }

  /** The first `k` workshifts span exactly the base units before workshift `k`. */
  lemma {:induction false} LeadingDurations(b: Band, k: nat)
    requires ValidBand(b) && k <= |b.starts|
    ensures TotalDuration(b, Range(k)) == if k < |b.starts| then b.starts[k] else b.units
  {
    if k > 0 {
      assert Range(k)[..k - 1] == Range(k - 1);
      LeadingDurations(b, k - 1);
    }
  }

  /** The durations of all workshifts add up to the length of the frame. */
  lemma DurationsSumToFrame(b: Band)
    requires ValidBand(b)
    ensures TotalDuration(b, Range(|b.starts|)) == b.units
  {
    LeadingDurations(b, |b.starts|);
  }

  // ----- times of workshifts on a frame -----

  predicate OnFrame(f: Frame, b: Band)
  {
    ValidFrame(f) && ValidBand(b) && b.units == |f.starts|
  }

  /** `get_ws_start_time`. */
  function WsStartTime(f: Frame, b: Band, j: nat): int
    requires OnFrame(f, b) && j < |b.starts|
  {
    f.starts[WsFirst(b, j)]
  }

  /** `get_ws_end_time`. */
  function WsEndTime(f: Frame, b: Band, j: nat): int
    requires OnFrame(f, b) && j < |b.starts|
  {
    UnitEnd(f, WsLast(b, j))
  }

  /** `get_ws_ref_time`: the end time when the reference is 'end', else the start time. */
  function WsRefTime(f: Frame, b: Band, refIsEnd: bool, j: nat): (t: int)
    requires OnFrame(f, b) && j < |b.starts|
    ensures WsStartTime(f, b, j) <= t <= WsEndTime(f, b, j)
  {
    UnitStartBeforeEnd(f, WsFirst(b, j), WsLast(b, j));
    if refIsEnd then WsEndTime(f, b, j) else WsStartTime(f, b, j)
  }

  lemma UnitStartBeforeEnd(f: Frame, u: nat, v: nat)
    requires ValidFrame(f) && u <= v < |f.starts|
    ensures f.starts[u] <= UnitEnd(f, v)
  {
  }

  /** `get_ws_position`: the workshift containing point in time `t`;
      OutOfBounds when `t` is outside the frame. */
  function WsPosition(f: Frame, b: Band, t: int): (r: Result<nat>)
    requires OnFrame(f, b)
    ensures r.Err? <==> t < f.starts[0] || t > f.end
    ensures r.Err? ==> r.error == OutOfBounds
    ensures r.Ok? ==> r.value < |b.starts| && WsStartTime(f, b, r.value) <= t <= WsEndTime(f, b, r.value)
  {
    match GetLoc(f, t)
    case None => Err(OutOfBounds)
    case Some(u) =>
      var j := Containing(b, u);
      assert f.starts[WsFirst(b, j)] <= f.starts[u];
      assert UnitEnd(f, u) <= UnitEnd(f, WsLast(b, j));
      Ok(j)
  }

  /** Workshifts before the one containing `t` end before `t`. */
  lemma EarlierWorkshiftsEndBefore(f: Frame, b: Band, t: int, j: nat)
    requires OnFrame(f, b) && WsPosition(f, b, t).Ok? && j < WsPosition(f, b, t).value
    ensures WsEndTime(f, b, j) < t
  {
    var p := WsPosition(f, b, t).value;
    WorkshiftsOrdered(b, j, p);
    assert f.starts[WsLast(b, j) + 1] <= f.starts[WsFirst(b, p)];
  }

  /** Workshifts after the one containing `t` start after `t`. */
  lemma LaterWorkshiftsStartAfter(f: Frame, b: Band, t: int, j: nat)
    requires OnFrame(f, b) && WsPosition(f, b, t).Ok?
    requires WsPosition(f, b, t).value < j < |b.starts|
    ensures WsStartTime(f, b, j) > t
  {
    var p := WsPosition(f, b, t).value;
    WorkshiftsOrdered(b, p, j);
    assert WsLast(b, p) + 1 < |f.starts|;
    assert f.starts[WsLast(b, p) + 1] <= f.starts[WsFirst(b, j)];
  }
}
