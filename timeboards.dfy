// The timeboard (timeboard/timeboard.py: `Timeboard`): layout dispatch on
// construction, locating points in time, the arithmetic of interval
// locations, and the registry of schedules.

module Timeboards {
  import opened Errors
  import opened Frames
  import opened Patterns
  import opened Organizers
  import opened Bands
  import opened Timelines
  import opened Schedules
  import opened Intervals

  // ----- layout -----

  /** The `layout` argument: an Organizer, an iterable pattern (a list of
      labels or a RememberingPattern), or something that is not iterable. */
  datatype LayoutArg<L> = GivenOrganizer(org: Organizer<L>) | IterableLayout(layout: Layout<L>) | NotIterableLayout

  /** `Timeboard.__init__`: an Organizer is used as is; an iterable layout is
      wrapped as `Organizer(marks=[], structure=[layout])`. */
  function LayoutOrganizer<L>(arg: LayoutArg<L>): (r: Result<Organizer<L>>)
    ensures r.Err? <==> arg.NotIterableLayout?
    ensures r.Err? ==> r.error == TypeError
    ensures arg.GivenOrganizer? ==> r == Ok(arg.org)
    ensures arg.IterableLayout? ==> r == Ok(Organizer(AtMarks([]), Layouts([arg.layout])))
  {
    match arg
    case GivenOrganizer(org) => Ok(org)
    case IterableLayout(layout) => MakeOrganizer(None, Some(MarkList([])), Iterable(Layouts([layout])))
    case NotIterableLayout => Err(TypeError)
  }

  /** Partitioning at no marks leaves a valid span whole: the wrapped layout
      is applied once, over the whole frame. */
  lemma NoMarksKeepSpan(n: nat, span: Span)
    requires CheckSpan(n, span) == Pass
    ensures CreateSubspans(n, span, []) == Ok([Span(span.first, span.last, 0, 0)])
  {
    assert SplitSet(span, []) == {};
    CreateSubspansTiles(n, span, []);
    var spans := CreateSubspans(n, span, []).value;
    assert |spans| == 1 && spans[0].first == span.first && spans[0].last == span.last;
    assert spans == [spans[0]];
  }

  /** The RememberingPatterns that constructing from `arg` may advance. */
  function ArgPatterns<L>(arg: LayoutArg<L>): set<RememberingPattern<L>>
  {
    match arg
    case GivenOrganizer(org) => OrganizerPatterns(org)
    case IterableLayout(layout) => LayoutPatterns(layout)
    case NotIterableLayout => {}
  }

  lemma WrappedPatterns<L>(arg: LayoutArg<L>)
    requires LayoutOrganizer(arg).Ok?
    ensures OrganizerPatterns(LayoutOrganizer(arg).value) == ArgPatterns(arg)
  {
    if arg.IterableLayout? {
      var items := [arg.layout];
      assert items[..0] == [];
      assert ItemsPatterns(items) == ItemsPatterns(items[..0]) + LayoutPatterns(arg.layout);
    }
  }

  /** The `amendments` argument: none, a dictionary (as its items), or
      something without `items`. */
  datatype AmendmentsArg<L> = NoAmendments | AmendmentDict(items: seq<(int, L)>) | NotDict

  /** The argument checks of `Timeboard.__init__`, in their order: the
      layout, the amendments, the work time source. */
  function CheckArgs<L>(layout: LayoutArg<L>, amendments: AmendmentsArg<L>, worktimeSource: string): (r: Result<Organizer<L>>)
    ensures layout.NotIterableLayout? ==> r == Err(TypeError)
    ensures !layout.NotIterableLayout? && amendments.NotDict? ==> r == Err(TypeError)
    ensures !layout.NotIterableLayout? && !amendments.NotDict? && worktimeSource !in ["duration", "labels"]
            ==> r == Err(ValueError)
    ensures r.Ok? <==> !layout.NotIterableLayout? && !amendments.NotDict? && worktimeSource in ["duration", "labels"]
    ensures r.Ok? ==> r == LayoutOrganizer(layout)
  {
    match LayoutOrganizer(layout)
    case Err(e) => Err(e)
    case Ok(org) =>
      if amendments.NotDict? then Err(TypeError)
      else if worktimeSource !in ["duration", "labels"] then Err(ValueError)
      else Ok(org)
  }

  function AmendmentItems<L>(a: AmendmentsArg<L>): seq<(int, L)>
  {
    if a.AmendmentDict? then a.items else []
  }

  // ----- locations -----

  /** `OOB_LEFT`, `LOC_WITHIN`, `OOB_RIGHT`. */
  const OobLeft: int := -1
  const LocWithin: int := 0
  const OobRight: int := 1

  /** `_Location`: a position on the timeline (None when there is none) and
      where the point lies with respect to the timeline. */
  datatype Location = Location(position: Option<int>, where: int)

  /** Which workshift `_locate` looks for: the one containing the point, or
      the nearest whose reference time is before or after it. */
  datatype ByRef = NoRef | RefBefore | RefAfter

  /** `_locate`: classifies what the timeline's position function gave for
      the point in time `t` on a timeboard spanning `start..end`. */
  function Locate(found: Result<nat>, t: int, start: int, end: int, byRef: ByRef): (r: Result<Location>)
    ensures found.Ok? ==> r == Ok(Location(Some(found.value), LocWithin))
    ensures found.Err? && found.error != OutOfBounds ==> r == Err(found.error)
    ensures found == Err(OutOfBounds) ==>
              && (t < start ==> r == Ok(Location(None, OobLeft)))
              && (start <= t && t > end ==> r == Ok(Location(None, OobRight)))
              && (start <= t <= end && byRef == RefBefore ==> r == Ok(Location(None, OobLeft)))
              && (start <= t <= end && byRef == RefAfter ==> r == Ok(Location(None, OobRight)))
              && (start <= t <= end && byRef == NoRef ==> r == Err(RuntimeError))
  {
    match found
    case Ok(p) => Ok(Location(Some(p), LocWithin))
    case Err(OutOfBounds) =>
      if t < start then Ok(Location(None, OobLeft))
      else if t > end then Ok(Location(None, OobRight))
      else if byRef == RefBefore then Ok(Location(None, OobLeft))
      else if byRef == RefAfter then Ok(Location(None, OobRight))
      else Err(RuntimeError)
    case Err(e) => Err(e)
  }

  /** Locating a containing workshift never hits the inconsistent branch:
      a point is within exactly when it lies on the frame. */
  lemma LocateContaining(f: Frame, b: Band, t: int)
    requires OnFrame(f, b)
    ensures Locate(WsPosition(f, b, t), t, f.starts[0], f.end, NoRef).Ok?
    ensures var loc := Locate(WsPosition(f, b, t), t, f.starts[0], f.end, NoRef).value;
            && WellFormed(loc)
            && (loc.where == LocWithin <==> f.starts[0] <= t <= f.end)
            && (loc.where == OobLeft <==> t < f.starts[0])
  {
  }

  /** A location within the timeline has a position. */
  predicate WellFormed(loc: Location)
  {
    loc.where in {OobLeft, LocWithin, OobRight} && (loc.where == LocWithin ==> loc.position.Some?)
  }

  /** `_locations_in_order`: positions when both are within, else the codes. */
  predicate LocationsInOrder(a: Location, b: Location)
    requires WellFormed(a) && WellFormed(b)
  {
    if a.where == LocWithin && b.where == LocWithin then a.position.value <= b.position.value
    else a.where <= b.where
  }

  /** Later points in time are located no earlier. */
  lemma LocateMonotone(f: Frame, b: Band, t1: int, t2: int)
    requires OnFrame(f, b) && t1 <= t2
    ensures var l1 := Locate(WsPosition(f, b, t1), t1, f.starts[0], f.end, NoRef).value;
            var l2 := Locate(WsPosition(f, b, t2), t2, f.starts[0], f.end, NoRef).value;
            WellFormed(l1) && WellFormed(l2) && LocationsInOrder(l1, l2)
  {
    LocateContaining(f, b, t1);
    LocateContaining(f, b, t2);
    if WsPosition(f, b, t1).Ok? && WsPosition(f, b, t2).Ok? {
      var p1 := WsPosition(f, b, t1).value;
      var p2 := WsPosition(f, b, t2).value;
      if p2 < p1 {
        EarlierWorkshiftsEndBefore(f, b, t1, p2);
      }
    }
  }

  /** The order is transitive. */
  lemma InOrderTransitive(a: Location, b: Location, c: Location)
    requires WellFormed(a) && WellFormed(b) && WellFormed(c)
    requires LocationsInOrder(a, b) && LocationsInOrder(b, c)
    ensures LocationsInOrder(a, c)
  {
  }

  // ----- interval locations -----

  /** `_strip_interval_locs`: drop the head or the tail workshift, where a
      position is defined. */
  function StripIntervalLocs(locs: (Location, Location), dropHead: bool, dropTail: bool): (r: (Location, Location))
    ensures r.0.where == locs.0.where && r.1.where == locs.1.where
    ensures r.0.position.Some? <==> locs.0.position.Some?
    ensures r.1.position.Some? <==> locs.1.position.Some?
    ensures r.0.position.Some? ==> r.0.position.value == locs.0.position.value + (if dropHead then 1 else 0)
    ensures r.1.position.Some? ==> r.1.position.value == locs.1.position.value - (if dropTail then 1 else 0)
    ensures WellFormed(locs.0) ==> WellFormed(r.0)
    ensures WellFormed(locs.1) ==> WellFormed(r.1)
  {
    var p0 := if dropHead && locs.0.position.Some? then Some(locs.0.position.value + 1) else locs.0.position;
    var p1 := if dropTail && locs.1.position.Some? then Some(locs.1.position.value - 1) else locs.1.position;
    (Location(p0, locs.0.where), Location(p1, locs.1.where))
  }

  /** `closed='11'` keeps the locations; dropping both ends of defined
      positions narrows the interval by two workshifts. */
  lemma StripKeepsOrNarrows(locs: (Location, Location))
    ensures StripIntervalLocs(locs, false, false) == locs
    ensures locs.0.position.Some? && locs.1.position.Some? ==>
              var r := StripIntervalLocs(locs, true, true);
              r.1.position.value - r.0.position.value == locs.1.position.value - locs.0.position.value - 2
  {
  }

  /** The `closed` argument: '00', '01', '10' or '11'. */
  predicate ValidClosed(closed: string)
  {
    closed in ["00", "01", "10", "11"]
  }

  /** `copysign(1, length)` as an integer. */
  function Sign(length: int): int
  {
    if length < 0 then -1 else 1
  }

  /** `_get_interval_locs_by_length`: the other end is `length - sign(length)`
      workshifts away from the located start; a zero length is void. */
  function LocsByLength(start: Location, length: int, n: nat, dropHead: bool, dropTail: bool): (r: Result<(Location, Location)>)
    ensures length == 0 <==> r.Err?
    ensures r.Err? ==> r.error == VoidInterval
    ensures length != 0 && start.position.None? ==> r == Ok((start, start))
    ensures WellFormed(start) && r.Ok? ==> WellFormed(r.value.0) && WellFormed(r.value.1)
  {
    if length == 0 then Err(VoidInterval)
    else if start.position.None? then Ok((start, start))
    else
      var p := start.position.value;
      var other := p + length - Sign(length);
      var locs :=
        if other < 0 then (Location(None, OobLeft), start)
        else if other >= n then (start, Location(None, OobRight))
        else if other < p then (Location(Some(other), LocWithin), start)
        else (start, Location(Some(other), LocWithin));
      Ok(StripIntervalLocs(locs, dropHead, dropTail))
  }

  /** A located start and a length whose other end is on the timeline give
      `|length|` workshifts, starting at the start for a positive length and
      ending there for a negative one; past an end of the timeline that side
      is undefined. */
  lemma ByLengthSpan(p: nat, length: int, n: nat)
    requires p < n && length != 0
    ensures var r := LocsByLength(Location(Some(p), LocWithin), length, n, false, false).value;
            var other := p + length - Sign(length);
            && (0 <= other < n ==>
                  && r.0.position.Some? && r.1.position.Some?
                  && r.1.position.value - r.0.position.value + 1 == (if length < 0 then -length else length)
                  && (length > 0 ==> r.0.position.value == p)
                  && (length < 0 ==> r.1.position.value == p))
            && (other < 0 ==> r.0 == Location(None, OobLeft))
            && (other >= n ==> r.1 == Location(None, OobRight))
  {
  }

  /** `_get_interval_locs_by_period`: the workshifts with reference times
      after the period's start and before its end; with `clip`, a side that
      falls off the timeline while the other does not is clipped to the
      timeline's end and is not dropped. */
  function LocsByPeriod(loc0: Location, loc1: Location, n: nat, clip: bool, dropHead: bool, dropTail: bool)
    : (r: (Location, Location))
    requires n >= 1
    ensures r.0.where == loc0.where && r.1.where == loc1.where
    ensures clip && loc0.where == OobLeft && loc1.where != OobLeft ==> r.0.position == Some(0)
    ensures clip && loc1.where == OobRight && loc0.where != OobRight ==> r.1.position == Some(n - 1)
    ensures !clip ==> r == StripIntervalLocs((loc0, loc1), dropHead, dropTail)
    ensures WellFormed(loc0) && WellFormed(loc1) ==> WellFormed(r.0) && WellFormed(r.1)
  {
    var clipHead := clip && loc0.where == OobLeft && loc1.where != OobLeft;
    var clipTail := clip && loc1.where == OobRight && loc0.where != OobRight;
    var p0 := if clipHead then Some(0) else loc0.position;
    var p1 := if clipTail then Some(n - 1) else loc1.position;
    StripIntervalLocs((Location(p0, loc0.where), Location(p1, loc1.where)),
                      dropHead && !clipHead, dropTail && !clipTail)
  }

  /** An interval reference: none (the whole timeline), a pair of points
      (each located, or None when null), or something else. */
  datatype Reference = NullRef | PairRef(first: Option<Location>, second: Option<Location>) | OtherRef

  /** `_get_interval_locs_from_reference`. */
  function LocsFromReference(ref: Reference, n: nat, dropHead: bool, dropTail: bool): (r: Result<(Location, Location)>)
    requires n >= 1
    ensures r.Err? <==> ref.OtherRef?
    ensures r.Err? ==> r.error == TypeError
    ensures ref.NullRef? ==>
              r == Ok(StripIntervalLocs((Location(Some(0), LocWithin), Location(Some(n - 1), LocWithin)), dropHead, dropTail))
    ensures ref.PairRef? && ref.first.Some? ==> r.value.0.where == ref.first.value.where
    ensures ref.PairRef? && ref.second.Some? ==> r.value.1.where == ref.second.value.where
    ensures r.Ok? && (ref.PairRef? ==> (ref.first.Some? ==> WellFormed(ref.first.value))
                                       && (ref.second.Some? ==> WellFormed(ref.second.value))) ==>
              WellFormed(r.value.0) && WellFormed(r.value.1)
  {
    var whole := (Location(Some(0), LocWithin), Location(Some(n - 1), LocWithin));
    match ref
    case NullRef => Ok(StripIntervalLocs(whole, dropHead, dropTail))
    case PairRef(a, b) =>
      var l0 := if a.Some? then a.value else whole.0;
      var l1 := if b.Some? then b.value else whole.1;
      Ok(StripIntervalLocs((l0, l1), dropHead, dropTail))
    case OtherRef => Err(TypeError)
  }

  /** The tail of `get_interval`: the order check, then the out-of-bounds
      checks, then the interval itself. */
  function IntervalFromLocs(locs: (Location, Location), n: nat): (r: Result<Interval>)
    requires WellFormed(locs.0) && WellFormed(locs.1)
    ensures !LocationsInOrder(locs.0, locs.1) ==> r == Err(VoidInterval)
    ensures LocationsInOrder(locs.0, locs.1) && locs.0.position.None? && locs.1.position.None? ==>
              r == Err(if locs.0.where == locs.1.where then OutOfBounds else PartialOutOfBounds)
    ensures LocationsInOrder(locs.0, locs.1) && (locs.0.position.None? != locs.1.position.None?) ==>
              r == Err(PartialOutOfBounds)
    ensures r.Ok? ==> ValidInterval(n, r.value) && !r.value.isVoid
  {
    if !LocationsInOrder(locs.0, locs.1) then Err(VoidInterval)
    else if locs.0.position.None? && locs.1.position.None? then
      if locs.0.where == locs.1.where then Err(OutOfBounds) else Err(PartialOutOfBounds)
    else if locs.0.position.None? || locs.1.position.None? then Err(PartialOutOfBounds)
    else MakeInterval(n, Some([IntBound(locs.0.position.value), IntBound(locs.1.position.value)]), false)
  }

  /** `get_interval` gives an interval exactly when the locations are in
      order and both positions are defined, on the timeline and not reversed. */
  lemma IntervalFromLocsExact(locs: (Location, Location), n: nat)
    requires WellFormed(locs.0) && WellFormed(locs.1)
    ensures IntervalFromLocs(locs, n).Ok? <==>
              && LocationsInOrder(locs.0, locs.1)
              && locs.0.position.Some? && locs.1.position.Some?
              && 0 <= locs.0.position.value <= locs.1.position.value < n
    ensures IntervalFromLocs(locs, n).Ok? ==>
              IntervalFromLocs(locs, n).value == Interval(locs.0.position.value, locs.1.position.value, false)
  {
  }

  /** How `get_interval` is asked: by a reference (with the period its
      reference denotes, when it is period-like, already located), by a
      start and a length, by a period (located), or by both a length and a
      period. */
  datatype Query =
    | ByReference(ref: Reference, asPeriod: Option<(Location, Location)>)
    | ByLength(start: Location, length: int)
    | ByPeriod(periodLocs: (Location, Location))
    | LengthAndPeriod

  /** `get_interval`. */
  function GetInterval(q: Query, n: nat, clip: bool, closed: string): (r: Result<Interval>)
    requires n >= 1
    requires q.ByReference? && q.asPeriod.Some? ==> WellFormed(q.asPeriod.value.0) && WellFormed(q.asPeriod.value.1)
    requires q.ByReference? && q.ref.PairRef? ==>
               (q.ref.first.Some? ==> WellFormed(q.ref.first.value)) && (q.ref.second.Some? ==> WellFormed(q.ref.second.value))
    requires q.ByLength? ==> WellFormed(q.start)
    requires q.ByPeriod? ==> WellFormed(q.periodLocs.0) && WellFormed(q.periodLocs.1)
    ensures !ValidClosed(closed) ==> r == Err(ValueError)
    ensures ValidClosed(closed) && q.LengthAndPeriod? ==> r == Err(TypeError)
    ensures ValidClosed(closed) && q.ByReference? && q.ref.OtherRef? && q.asPeriod.None? ==> r == Err(TypeError)
    ensures ValidClosed(closed) && q.ByLength? && q.length == 0 ==> r == Err(VoidInterval)
    ensures r.Ok? ==> ValidInterval(n, r.value) && !r.value.isVoid
  {
    if !ValidClosed(closed) then Err(ValueError)
    else
      var dropHead := closed[0] == '0';
      var dropTail := closed[1] == '0';
      var locs: Result<(Location, Location)> :=
        match q
        case ByReference(ref, asPeriod) =>
          if !ref.OtherRef? then LocsFromReference(ref, n, dropHead, dropTail)
          else if asPeriod.None? then Err(TypeError)
          else Ok(LocsByPeriod(asPeriod.value.0, asPeriod.value.1, n, clip, dropHead, dropTail))
        case ByLength(start, length) => LocsByLength(start, length, n, dropHead, dropTail)
        case ByPeriod(pl) => Ok(LocsByPeriod(pl.0, pl.1, n, clip, dropHead, dropTail))
        case LengthAndPeriod => Err(TypeError);
      match locs
      case Err(e) => Err(e)
      case Ok(ls) => IntervalFromLocs(ls, n)
  }

  /** With no reference the whole timeline is the interval; each dropped
      end takes one workshift off it. */
  lemma WholeTimeline(n: nat)
    requires n >= 3
    ensures GetInterval(ByReference(NullRef, None), n, true, "11") == Ok(Interval(0, n - 1, false))
    ensures GetInterval(ByReference(NullRef, None), n, true, "00") == Ok(Interval(1, n - 2, false))
  {
    assert ("11"[0] == '0') == false && ("11"[1] == '0') == false;
    assert "00"[0] == '0' && "00"[1] == '0';
  }

  // ----- the timeboard and its schedules -----

  /** A timeboard: its banded, amended timeline and its named schedules. */
  class Timeboard<L> {
    const frame: Frame
    const band: Band
    const labels: seq<L>
    const worktimeSource: string
    var schedules: map<string, Schedule<L>>

    /** Every registered schedule is built on the timeline's labels and is
        registered under its own name. */
    ghost predicate Valid()
      reads this
    {
      && OnFrame(frame, band) && |labels| == |band.starts|
      && forall k :: k in schedules ==> schedules[k].name == k && schedules[k].labels == labels && Built(schedules[k])
    }

    /** The registry that `__init__` starts with: the default schedule. */
    constructor(frame: Frame, band: Band, labels: seq<L>, worktimeSource: string,
                defaultName: string, selector: L -> bool)
      requires OnFrame(frame, band) && |labels| == |band.starts|
      ensures Valid()
      ensures this.frame == frame && this.band == band && this.labels == labels
      ensures this.worktimeSource == worktimeSource
      ensures schedules.Keys == {defaultName}
      ensures schedules[defaultName].selector == selector
    {
      this.frame := frame;
      this.band := band;
      this.labels := labels;
      this.worktimeSource := worktimeSource;
      schedules := map[defaultName := MakeSchedule(labels, defaultName, selector)];
    }

    /** `add_schedule`: a taken name raises KeyError and changes nothing;
        otherwise the new schedule is registered under its name. */
    method AddSchedule(name: string, selector: L -> bool) returns (r: Outcome)
      requires Valid()
      modifies this
      ensures Valid()
      ensures name in old(schedules) ==> r == Fail(KeyError) && schedules == old(schedules)
      ensures name !in old(schedules) ==>
                && r == Pass
                && schedules.Keys == old(schedules).Keys + {name}
                && schedules[name].selector == selector
                && forall k :: k in old(schedules) ==> schedules[k] == old(schedules)[k]
    {
      if name in schedules {
        return Fail(KeyError);
      }
      schedules := schedules[name := MakeSchedule(labels, name, selector)];
      return Pass;
    }

    /** `drop_schedule`: only that name is removed; a missing name raises
        KeyError.  The default schedule may be dropped like any other. */
    method DropSchedule(name: string) returns (r: Outcome)
      requires Valid()
      modifies this
      ensures Valid()
      ensures name !in old(schedules) ==> r == Fail(KeyError) && schedules == old(schedules)
      ensures name in old(schedules) ==>
                && r == Pass
                && schedules.Keys == old(schedules).Keys - {name}
                && forall k :: k in schedules ==> schedules[k] == old(schedules)[k]
    {
      if name !in schedules {
        return Fail(KeyError);
      }
      schedules := schedules - {name};
      return Pass;
    }
  }

  /** `Timeboard.__init__`: the argument checks, the timeline organized by
      the layout, the amendments (points outside the timeline ignored), and
      the default schedule. */
  method Create<L>(frame: Frame, rules: PeriodRules, baseUnitFreq: string, refIsEnd: bool, default: L,
                   layout: LayoutArg<L>, amendments: AmendmentsArg<L>, defaultName: string,
                   selector: L -> bool, worktimeSource: string)
    returns (tb: Timeboard?<L>, r: Outcome)
    requires ValidFrame(frame)
    modifies ArgPatterns(layout)
    ensures CheckArgs(layout, amendments, worktimeSource).Err? ==>
              r == Fail(CheckArgs(layout, amendments, worktimeSource).error) && tb == null
    ensures r.Pass? ==> && tb != null && tb.Valid() && tb.frame == frame
                        && tb.worktimeSource == worktimeSource
                        && tb.schedules.Keys == {defaultName}
                        && tb.schedules[defaultName].selector == selector
  {
    var org := CheckArgs(layout, amendments, worktimeSource);
    if org.Err? {
      return null, Fail(org.error);
    }
    WrappedPatterns(layout);
    var t, built := Build(frame, rules, baseUnitFreq, refIsEnd, default, Some(org.value));
    if built.Fail? {
      return null, built;
    }
    var amended := t.Amend(AmendmentItems(amendments), "ignore");
    if amended.Fail? {
      return null, amended;
    }
    tb := new Timeboard(frame, t.band, t.wsLabels, worktimeSource, defaultName, selector);
    r := Pass;
  }
}
