// The frame and its partitioning into spans (timeboard/core.py: `_Frame`,
// `_Span`, `_check_groupby_freq`, `partition_with_marker`).
//
// A frame is a sequence of base units given by strictly increasing integer
// start times; marks are already resolved to base-unit positions.  The date
// arithmetic of the period library (its subperiod relation, its validity test
// for a frequency string and the dangle computation) enters as parameters.

module Frames {
  import opened Errors
  import opened Indexing

  /** A part of the frame: base units `first..last` and the number of pattern
      steps skipped before the first (`skipLeft`) or after the last
      (`skipRight`), -1 when it could not be calculated. */
  datatype Span = Span(first: int, last: int, skipLeft: int, skipRight: int)

  /** Base units by start time; `end` is the end time of the last one. */
  datatype Frame = Frame(starts: seq<int>, end: int)

  predicate ValidFrame(f: Frame)
  {
    |f.starts| >= 1 && Increasing(f.starts) && f.end >= f.starts[|f.starts| - 1]
  }

  /** The end time of base unit `i`: one tick before the next start. */
  function UnitEnd(f: Frame, i: nat): int
    requires ValidFrame(f) && i < |f.starts|
  {
    if i + 1 < |f.starts| then f.starts[i + 1] - 1 else f.end
  }

  /** `_Frame.get_loc`: the base unit containing `t`, None (KeyError) outside the frame. */
  function GetLoc(f: Frame, t: int): (r: Option<nat>)
    requires ValidFrame(f)
    ensures r.None? <==> t < f.starts[0] || t > f.end
    ensures r.Some? ==> r.value < |f.starts| && f.starts[r.value] <= t <= UnitEnd(f, r.value)
  {
    if t > f.end || t < f.starts[0] then None
    else
      SearchRightSorted(f.starts, t);
      Some(SearchRight(f.starts, t) - 1)
  }

  /** Base units do not overlap: a unit containing `t` is the one GetLoc finds. */
  lemma GetLocUnique(f: Frame, t: int, i: nat)
    requires ValidFrame(f) && i < |f.starts|
    requires f.starts[i] <= t <= UnitEnd(f, i)
    ensures GetLoc(f, t) == Some(i)
  {
  }

  /** `_Frame.check_span`. */
  function CheckSpan(n: nat, span: Span): (r: Outcome)
    ensures r == Pass <==> 0 <= span.first <= span.last < n
    ensures r == Fail(OutOfBounds) <==> !(0 <= span.first < n && 0 <= span.last < n)
    ensures r == Fail(VoidInterval) <==> 0 <= span.last < span.first < n
  {
    if !(0 <= span.first < n) || !(0 <= span.last < n) then Fail(OutOfBounds)
    else if span.first > span.last then Fail(VoidInterval)
    else Pass
  }

  /** The marks that start a new subspan: inside the span, after its first unit. */
  function SplitSet(span: Span, points: seq<int>): set<int>
  {
    set p | p in points && span.first < p <= span.last
  }

  /** Consecutive, non-empty (first, last) pairs covering exactly `first..last`. */
  predicate Tiling(bounds: seq<(int, int)>, first: int, last: int)
  {
    && |bounds| >= 1
    && bounds[0].0 == first
    && bounds[|bounds| - 1].1 == last
    && (forall k :: 0 <= k < |bounds| ==> bounds[k].0 <= bounds[k].1)
    && (forall k :: 0 <= k < |bounds| - 1 ==> bounds[k].1 + 1 == bounds[k + 1].0)
  }

  /** `_locate_subspans`: split the span at the distinct valid marks, in ascending order. */
  function LocateSubspans(n: nat, span: Span, points: seq<int>): (r: Result<seq<(int, int)>>)
    ensures r.Err? <==> CheckSpan(n, span) != Pass
    ensures r.Err? ==> r.error == CheckSpan(n, span).error
    ensures r.Ok? ==> Tiling(r.value, span.first, span.last)
    ensures r.Ok? ==> |r.value| == |SplitSet(span, points)| + 1
    ensures r.Ok? ==> forall k :: 0 < k < |r.value| ==> r.value[k].0 == SplitPositions(span, points)[k - 1]
  {
    match CheckSpan(n, span)
    case Fail(e) => Err(e)
    case Pass =>
      var splits := SplitPositions(span, points);
      Ok(SplitBounds(span.first, splits, span.last))
  }

  /** The split positions: the distinct marks of SplitSet, ascending. */
  function SplitPositions(span: Span, points: seq<int>): (r: seq<int>)
    ensures Increasing(r)
    ensures Members(r) == SplitSet(span, points)
    ensures |r| == |SplitSet(span, points)|
    ensures forall k :: 0 <= k < |r| ==> span.first < r[k] <= span.last
  {
    var splits := SortedDistinct(Between(points, span.first + 1, span.last));
    assert Members(splits) == SplitSet(span, points);
    assert forall k :: 0 <= k < |splits| ==> splits[k] in Members(splits);
    splits
  }

  /** The (first, last) pairs obtained by starting a new part at each split position. */
  function SplitBounds(first: int, splits: seq<int>, last: int): (r: seq<(int, int)>)
    requires Increasing(splits)
    requires forall k :: 0 <= k < |splits| ==> first < splits[k] <= last
    requires first <= last
    ensures Tiling(r, first, last)
    ensures |r| == |splits| + 1
    ensures forall k :: 0 < k < |r| ==> r[k].0 == splits[k - 1]
  {
    var starts := [first] + splits;
    var ends := seq(|splits|, k requires 0 <= k < |splits| => splits[k] - 1) + [last];
    seq(|starts|, k requires 0 <= k < |starts| => (starts[k], ends[k]))
  }

  /** Consecutive, non-empty spans covering exactly `first..last`. */
  predicate SpanTiling(spans: seq<Span>, first: int, last: int)
  {
    && |spans| >= 1
    && spans[0].first == first
    && spans[|spans| - 1].last == last
    && (forall k :: 0 <= k < |spans| ==> spans[k].first <= spans[k].last)
    && (forall k :: 0 <= k < |spans| - 1 ==> spans[k].last + 1 == spans[k + 1].first)
  }

  /** In a tiling every span lies inside `first..last` and ends before the next ones start. */
  lemma {:induction false} SpanTilingOrdered(spans: seq<Span>, first: int, last: int)
    requires SpanTiling(spans, first, last)
    ensures forall a, b :: 0 <= a < b < |spans| ==> spans[a].last < spans[b].first
    ensures forall k :: 0 <= k < |spans| ==> first <= spans[k].first && spans[k].last <= last
  {
    if |spans| > 1 {
      var init := spans[..|spans| - 1];
      SpanTilingOrdered(init, first, spans[|spans| - 2].last);
      assert forall a :: 0 <= a < |init| ==> init[a].last <= spans[|spans| - 2].last;
    }
  }

  /** In a tiling every unit of `first..last` is in some span. */
  lemma {:induction false} SpanTilingCovers(spans: seq<Span>, first: int, last: int, u: int)
    requires SpanTiling(spans, first, last) && first <= u <= last
    ensures exists t :: 0 <= t < |spans| && spans[t].first <= u <= spans[t].last
  {
    if u >= spans[|spans| - 1].first {
      assert spans[|spans| - 1].first <= u <= spans[|spans| - 1].last;
    } else {
      var init := spans[..|spans| - 1];
      SpanTilingCovers(init, first, spans[|spans| - 2].last, u);
      var t :| 0 <= t < |init| && init[t].first <= u <= init[t].last;
      assert spans[t] == init[t];
    }
  }

  /** `_create_subspans` (and `partition_at_marks`, which only resolves the marks). */
  function CreateSubspans(n: nat, span: Span, points: seq<int>): (r: Result<seq<Span>>)
    ensures r.Err? <==> LocateSubspans(n, span, points).Err?
    ensures r.Err? ==> r.error == LocateSubspans(n, span, points).error
    ensures r.Ok? ==> |r.value| == |LocateSubspans(n, span, points).value|
    ensures r.Ok? ==> forall k :: 0 <= k < |r.value| ==>
      r.value[k] == Span(LocateSubspans(n, span, points).value[k].0,
                         LocateSubspans(n, span, points).value[k].1, 0, 0)
  {
    match LocateSubspans(n, span, points)
    case Err(e) => Err(e)
    case Ok(bounds) =>
      Ok(seq(|bounds|, k requires 0 <= k < |bounds| => Span(bounds[k].0, bounds[k].1, 0, 0)))
  }

  lemma CreateSubspansTiles(n: nat, span: Span, points: seq<int>)
    requires CreateSubspans(n, span, points).Ok?
    ensures SpanTiling(CreateSubspans(n, span, points).value, span.first, span.last)
    ensures |CreateSubspans(n, span, points).value| == |SplitSet(span, points)| + 1
  {
  }

  /** What the date library computes for a marker over a span: either the
      marker's `at` offsets yield no mark near the span, or the resolved marks
      together with the dangles before and after the span. */
  datatype Markup = NoMarks | Marks(points: seq<int>, skipBefore: int, skipAfter: int)

  /** A Marker: the period frequency `each` and the (external) mark computation. */
  datatype Marker = Marker(each: string, markup: Span -> Markup)

  /** The period library's relations between frequency strings. */
  datatype PeriodRules = PeriodRules(isSubperiod: (string, string) -> bool, isValidFreq: string -> bool)

  /** The dangle-attachment tail of `partition_with_marker`. */
  function AttachDangles(spans: seq<Span>, before: int, after: int): (r: seq<Span>)
    requires |spans| >= 1
    ensures |r| == |spans|
    ensures forall k :: 0 <= k < |r| ==> r[k].first == spans[k].first && r[k].last == spans[k].last
    ensures r[0].skipLeft == before && r[|r| - 1].skipRight == after
    ensures forall k :: 0 < k < |r| ==> r[k].skipLeft == spans[k].skipLeft
    ensures forall k :: 0 <= k < |r| - 1 ==> r[k].skipRight == spans[k].skipRight
  {
    var s := spans[0 := spans[0].(skipLeft := before)];
    s[|s| - 1 := s[|s| - 1].(skipRight := after)]
  }

  /** `partition_with_marker` with the marks and dangles supplied by
      `marker.markup`: the spans tile the span, and only the outer spans carry
      dangles. */
  function PartitionWithMarker(n: nat, rules: PeriodRules, baseUnitFreq: string,
                               marker: Marker, span: Span): (r: Result<seq<Span>>)
    ensures r.Ok? <==> CheckGroupbyFreq(baseUnitFreq, marker.each, rules) == Ok(true)
                       && CheckSpan(n, span) == Pass
    ensures CheckGroupbyFreq(baseUnitFreq, marker.each, rules) == Ok(false) ==> r == Err(UnacceptablePeriod)
    ensures r.Ok? ==> SpanTiling(r.value, span.first, span.last)
    ensures r.Ok? && marker.markup(span).NoMarks? ==> r.value == [Span(span.first, span.last, -1, -1)]
    ensures r.Ok? && marker.markup(span).Marks? ==>
              && |r.value| == |SplitSet(span, marker.markup(span).points)| + 1
              && r.value[0].skipLeft == marker.markup(span).skipBefore
              && r.value[|r.value| - 1].skipRight == marker.markup(span).skipAfter
              && (forall k :: 0 < k < |r.value| ==> r.value[k].skipLeft == 0)
              && (forall k :: 0 <= k < |r.value| - 1 ==> r.value[k].skipRight == 0)
  {
    match CheckGroupbyFreq(baseUnitFreq, marker.each, rules)
    case Err(e) => Err(e)
    case Ok(acceptable) =>
      if !acceptable then Err(UnacceptablePeriod)
      else match CheckSpan(n, span)
        case Fail(e) => Err(e)
        case Pass =>
          match marker.markup(span)
          case NoMarks => Ok([Span(span.first, span.last, -1, -1)])
          case Marks(points, before, after) => Ok(MarkedSpans(n, span, points, before, after))
  }

  /** The spans between the marks of a valid span, the dangles attached to
      the outer ones. */
  function MarkedSpans(n: nat, span: Span, points: seq<int>, before: int, after: int): (r: seq<Span>)
    requires CheckSpan(n, span) == Pass
    ensures SpanTiling(r, span.first, span.last)
    ensures |r| == |SplitSet(span, points)| + 1
    ensures r[0].skipLeft == before && r[|r| - 1].skipRight == after
    ensures forall k :: 0 < k < |r| ==> r[k].skipLeft == 0
    ensures forall k :: 0 <= k < |r| - 1 ==> r[k].skipRight == 0
  {
    CreateSubspansTiles(n, span, points);
    AttachDangles(CreateSubspans(n, span, points).value, before, after)
  }

  // ----- frequency strings: re.match(r"(^\d*)([A-Z-]+)", freq) -----

  predicate IsDigit(c: char) { '0' <= c <= '9' }

  predicate IsUpperOrDash(c: char) { 'A' <= c <= 'Z' || c == '-' }

  /** Length of the longest prefix of `s` whose characters satisfy `p`. */
  function PrefixRun(s: string, p: char -> bool): (r: nat)
    ensures r <= |s|
    ensures forall k :: 0 <= k < r ==> p(s[k])
    ensures r < |s| ==> !p(s[r])
  {
    if s == [] || !p(s[0]) then 0 else 1 + PrefixRun(s[1..], p)
  }

  /** `int(digits)` for a non-empty run of decimal digits. */
  function DecimalValue(d: string): nat
    requires forall k :: 0 <= k < |d| ==> IsDigit(d[k])
  {
    if d == [] then 0
    else 10 * DecimalValue(d[..|d| - 1]) + DigitValue(d[|d| - 1])
  }

  function DigitValue(c: char): nat
    requires IsDigit(c)
  {
    (c as int) - ('0' as int)
  }

  /** A frequency string split into its multiplier and its denomination. */
  datatype Freq = Freq(factor: nat, denomination: string)

  /** The regular-expression match of `_check_groupby_freq`: a (possibly empty)
      run of digits followed by a non-empty run of capitals and dashes; an
      empty digit run means the factor 1. */
  function ParseFreq(s: string): (r: Option<Freq>)
    ensures r.Some? ==> 1 <= |r.value.denomination| <= |s|
    ensures r.Some? ==> forall k :: 0 <= k < |r.value.denomination| ==> IsUpperOrDash(r.value.denomination[k])
    ensures r.Some? && r.value.factor != 1 ==> |r.value.denomination| < |s|
  {
    var digits := PrefixRun(s, IsDigit);
    var rest := s[digits..];
    var letters := PrefixRun(rest, IsUpperOrDash);
    if letters == 0 then None
    else
      var factor := if digits == 0 then 1 else DecimalValue(s[..digits]);
      Some(Freq(factor, rest[..letters]))
  }

  /** Parsing a written frequency `digits + denomination + tail` recovers its parts. */
  lemma ParseWrittenFreq(digits: string, denomination: string, tail: string)
    requires forall k :: 0 <= k < |digits| ==> IsDigit(digits[k])
    requires |denomination| >= 1 && forall k :: 0 <= k < |denomination| ==> IsUpperOrDash(denomination[k])
    requires tail == [] || !IsUpperOrDash(tail[0])
    ensures ParseFreq(digits + denomination + tail)
            == Some(Freq(if digits == [] then 1 else DecimalValue(digits), denomination))
  {
    var s := digits + denomination + tail;
    var rest := denomination + tail;
    assert s == digits + rest;
    RunOfPrefix(s, IsDigit, digits);
    assert PrefixRun(s, IsDigit) == |digits|;
    assert s[|digits|..] == rest;
    RunOfPrefix(rest, IsUpperOrDash, denomination);
    assert PrefixRun(rest, IsUpperOrDash) == |denomination|;
    assert s[..|digits|] == digits;
    assert rest[..|denomination|] == denomination;
  }

  lemma RunOfPrefix(s: string, p: char -> bool, pre: string)
    requires pre <= s
    requires forall k :: 0 <= k < |pre| ==> p(pre[k])
    requires |pre| == |s| || !p(s[|pre|])
    ensures PrefixRun(s, p) == |pre|
  {
  }

  /** A bare denomination parses with factor 1. */
  lemma ParseDenomination(d: string)
    requires |d| >= 1 && forall k :: 0 <= k < |d| ==> IsUpperOrDash(d[k])
    ensures ParseFreq(d) == Some(Freq(1, d))
  {
    ParseWrittenFreq([], d, []);
    assert [] + d + [] == d;
  }

  /** `_check_groupby_freq`: may base units of `bu` be grouped in periods of `gb`?
      Dividing by a zero base-unit multiplier raises ZeroDivisionError. */
  function CheckGroupbyFreq(bu: string, gb: string, rules: PeriodRules): (r: Result<bool>)
    ensures rules.isSubperiod(bu, gb) ==> r == Ok(true)
    ensures !rules.isSubperiod(bu, gb) && !rules.isValidFreq(gb) ==> r == Ok(false)
    ensures r.Err? ==> r.error == ZeroDivision
    // the hand-written rules, once the period library has refused
    ensures !rules.isSubperiod(bu, gb) && (ParseFreq(bu).None? || ParseFreq(gb).None?) ==> r == Ok(false)
    ensures (&& !rules.isSubperiod(bu, gb) && ParseFreq(bu).Some? && ParseFreq(gb).Some?
             && ParseFreq(bu).value.factor == 1 && ParseFreq(gb).value.factor == 1) ==> r == Ok(false)
    ensures (&& !rules.isSubperiod(bu, gb) && rules.isValidFreq(gb) && ParseFreq(bu).Some? && ParseFreq(gb).Some?
             && ParseFreq(bu).value.denomination == ParseFreq(gb).value.denomination
             && (ParseFreq(bu).value.factor != 1 || ParseFreq(gb).value.factor != 1)) ==>
              && (r == Err(ZeroDivision) <==> ParseFreq(bu).value.factor == 0)
              && (ParseFreq(bu).value.factor != 0 ==>
                    r == Ok(ParseFreq(gb).value.factor % ParseFreq(bu).value.factor == 0))
    ensures (&& !rules.isSubperiod(bu, gb) && ParseFreq(bu).Some? && ParseFreq(gb).Some?
             && ParseFreq(bu).value.denomination != ParseFreq(gb).value.denomination
             && ParseFreq(bu).value.factor != 1) ==> r == Ok(false)
    decreases |bu| + |gb|
  {
    if rules.isSubperiod(bu, gb) then Ok(true)
    else if !rules.isValidFreq(gb) then Ok(false)
    else match (ParseFreq(bu), ParseFreq(gb))
      case (Some(b), Some(g)) =>
        if b.factor == 1 && g.factor == 1 then Ok(false)
        else if b.denomination == g.denomination then
          if b.factor == 0 then Err(ZeroDivision) else Ok(g.factor % b.factor == 0)
        else if b.factor == 1 then CheckGroupbyFreq(b.denomination, g.denomination, rules)
        else Ok(false)
      case _ => Ok(false)
  }

  /** The recursive rule: with a plain base unit and a multiplied group
      frequency of another denomination, the answer is the subperiod relation
      of the two bare denominations. */
  lemma GroupbyRecursesOnDenominations(bu: string, gb: string, rules: PeriodRules)
    requires !rules.isSubperiod(bu, gb) && rules.isValidFreq(gb)
    requires ParseFreq(bu).Some? && ParseFreq(gb).Some?
    requires ParseFreq(bu).value.factor == 1 && ParseFreq(gb).value.factor != 1
    requires ParseFreq(bu).value.denomination != ParseFreq(gb).value.denomination
    ensures CheckGroupbyFreq(bu, gb, rules)
            == Ok(rules.isSubperiod(ParseFreq(bu).value.denomination, ParseFreq(gb).value.denomination))
  {
    var db := ParseFreq(bu).value.denomination;
    var dg := ParseFreq(gb).value.denomination;
    ParseDenomination(db);
    ParseDenomination(dg);
  }

  /** The rules on concrete frequencies, whatever the period library says
      apart from the stated facts. */
  lemma GroupbyMultipliedSameDenomination(rules: PeriodRules, digit: string, value: nat)
    requires |digit| == 1 && IsDigit(digit[0]) && DigitValue(digit[0]) == value
    requires rules.isValidFreq("4D") && !rules.isSubperiod(digit + "D", "4D")
    ensures value == 0 ==> CheckGroupbyFreq(digit + "D", "4D", rules) == Err(ZeroDivision)
    ensures value != 0 ==> CheckGroupbyFreq(digit + "D", "4D", rules) == Ok(4 % value == 0)
  {
    MultipliedDay(digit, value);
    MultipliedDay("4", 4);
    assert "4" + "D" == "4D";
  }

  lemma MultipliedDay(digit: string, value: nat)
    requires |digit| == 1 && IsDigit(digit[0]) && DigitValue(digit[0]) == value
    ensures ParseFreq(digit + "D") == Some(Freq(if value == 1 then 1 else value, "D"))
  {
    ParseWrittenFreq(digit, "D", []);
    assert digit + "D" + [] == digit + "D";
    assert digit[..0] == [];
  }

  /** Daily base units split by fortnights (tests/test_partitioning.py,
      `test_splitby_different_multiple_freqs1`): the answer is whether a day
      is a subperiod of a week. */
  lemma GroupbyOtherDenominations(rules: PeriodRules)
    requires !rules.isSubperiod("D", "2W") && rules.isValidFreq("2W")
    ensures CheckGroupbyFreq("D", "2W", rules) == Ok(rules.isSubperiod("D", "W"))
  {
    ParseWrittenFreq([], "D", []);
    ParseWrittenFreq("2", "W", []);
    assert "D" == [] + "D" + [] && "2W" == "2" + "W" + [];
    assert DecimalValue("2") == 2;
    GroupbyRecursesOnDenominations("D", "2W", rules);
  }

  /** 48-hour base units split by 4-day periods
      (tests/test_partitioning.py, `test_splitby_different_multiple_freqs6`,
      expected to fail): two multiplied frequencies of different
      denominations never group, so the split is refused. */
  lemma GroupbyMultipliedMismatch(rules: PeriodRules)
    requires !rules.isSubperiod("48H", "4D") && rules.isValidFreq("4D")
    ensures CheckGroupbyFreq("48H", "4D", rules) == Ok(false)
  {
    ParseWrittenFreq("48", "H", []);
    MultipliedDay("4", 4);
    assert "48H" == "48" + "H" + [] && "4D" == "4" + "D";
    assert DecimalValue("48") == 48;
  }
}
