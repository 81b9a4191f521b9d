// The calendar base (timeboard/calendars/calendarbase.py): extending
// weekend holidays to weekdays, the calendar's time bounds and the choice
// of amendments when a calendar is instantiated.
//
// A day is its proleptic Gregorian ordinal (day 1 is Monday, 1 January of
// year 1); amendments map days to labels.

module Calendars {
  import opened Errors
  import opened Indexing

  /** `date.weekday()`: Monday is 0, Sunday is 6. */
  function Weekday(d: int): (w: int)
    ensures 0 <= w < 7
  {
    (d + 6) % 7
  }

  /** The default weekend: Saturday and Sunday. */
  const DefaultWeekend: seq<int> := [5, 6]

  /** The `how` argument of `extend_weekends`. */
  datatype How = Previous | Next | Nearest

  /** `list.index`: the first position of `x`, None (ValueError) when absent. */
  function IndexOf(s: seq<int>, x: int): (r: Option<nat>)
    ensures r.None? <==> x !in s
    ensures r.Some? ==> r.value < |s| && s[r.value] == x && forall k :: 0 <= k < r.value ==> s[k] != x
  {
    if s == [] then None
    else if s[0] == x then Some(0)
    else
      match IndexOf(s[1..], x)
      case None => None
      case Some(i) => Some(i + 1)
  }

  /** Going back from a weekend day: `previous`, or `nearest` in the first
      half of the weekend. */
  predicate GoesBack(how: How, loc: nat, len: nat)
  {
    how == Previous || (how == Nearest && loc < len / 2)
  }

  /** The first day probed for a holiday at position `loc` of the weekend:
      the day before the weekend going back, the day after it going forward. */
  function FirstProbe(h: int, how: How, loc: nat, len: nat): int
  {
    if GoesBack(how, loc, len) then h - (loc + 1) else h + (len - loc)
  }

  function StepOf(how: How, loc: nat, len: nat): int
  {
    if GoesBack(how, loc, len) then -1 else 1
  }

  /** The days of `m` from `d` on in the direction of `step`. */
  function Ahead<L>(m: map<int, L>, d: int, step: int): set<int>
  {
    set k | k in m && (if step < 0 then k <= d else k >= d)
  }

  lemma AheadShrinks<L>(m: map<int, L>, d: int, step: int)
    requires step == 1 || step == -1
    requires d in m
    ensures |Ahead(m, d + step, step)| < |Ahead(m, d, step)|
  {
    assert Ahead(m, d + step, step) == Ahead(m, d, step) - {d};
  }

  /** The first day from `d` in the direction of `step` that is not yet
      amended: every day passed on the way already is. */
  function Probe<L>(m: map<int, L>, d: int, step: int): (r: int)
    requires step == 1 || step == -1
    ensures r !in m
    ensures step == 1 ==> d <= r && forall x :: d <= x < r ==> x in m
    ensures step == -1 ==> r <= d && forall x :: r < x <= d ==> x in m
    decreases |Ahead(m, d, step)|
  {
    if d !in m then d
    else
      AheadShrinks(m, d, step);
      Probe(m, d + step, step)
  }

  /** The day made a day off for a weekend holiday `h`: the nearest
      unamended day before the weekend (going back) or after it (going
      forward), every day between the weekend and it being amended already. */
  function AddedDay<L>(m: map<int, L>, h: int, how: How, weekend: seq<int>): (d: int)
    requires Weekday(h) in weekend
    ensures d !in m
    ensures var loc := IndexOf(weekend, Weekday(h)).value;
            GoesBack(how, loc, |weekend|) ==>
              d < h - loc && forall x :: d < x < h - loc ==> x in m
    ensures var loc := IndexOf(weekend, Weekday(h)).value;
            !GoesBack(how, loc, |weekend|) ==>
              d >= h + (|weekend| - loc) && forall x :: h + (|weekend| - loc) <= x < d ==> x in m
  {
    var loc := IndexOf(weekend, Weekday(h)).value;
    Probe(m, FirstProbe(h, how, loc, |weekend|), StepOf(how, loc, |weekend|))
  }

  /** One holiday of the loop of `extend_weekends`: a holiday on a weekend
      day adds one new day off labeled `lbl`; any other holiday adds nothing. */
  function ExtendStep<L>(m: map<int, L>, h: int, lbl: L, how: How, weekend: seq<int>): (r: map<int, L>)
    ensures Weekday(h) !in weekend ==> r == m
    ensures Weekday(h) in weekend ==>
              && r.Keys == m.Keys + {AddedDay(m, h, how, weekend)}
              && AddedDay(m, h, how, weekend) !in m
              && r[AddedDay(m, h, how, weekend)] == lbl
              && forall k :: k in m ==> r[k] == m[k]
  {
    if Weekday(h) in weekend then m[AddedDay(m, h, how, weekend) := lbl] else m
  }

  /** The label of the day added for holiday `h`: `label` when given,
      else the holiday's own. */
  function HolidayLabel<L>(a: map<int, L>, h: int, newLabel: Option<L>): L
    requires h in a
  {
    if newLabel.Some? then newLabel.value else a[h]
  }

  /** The loop of `extend_weekends` over the holidays `hs`, starting from `m`. */
  function ExtendFold<L>(a: map<int, L>, m: map<int, L>, hs: seq<int>, how: How, newLabel: Option<L>,
                         weekend: seq<int>): map<int, L>
    requires forall k :: 0 <= k < |hs| ==> hs[k] in a
  {
    if hs == [] then m
    else
      var h := hs[|hs| - 1];
      ExtendStep(ExtendFold(a, m, hs[..|hs| - 1], how, newLabel, weekend), h, HolidayLabel(a, h, newLabel), how, weekend)
  }

  lemma MaxExists(s: set<int>)
    requires s != {}
    ensures exists x :: x in s && forall y :: y in s ==> y <= x
  {
    if forall z :: z !in s {
      assert false;
    }
    var z :| z in s;
    var rest := s - {z};
    if rest != {} {
      MaxExists(rest);
      var m :| m in rest && forall y :: y in rest ==> y <= m;
      var x := if z > m then z else m;
      forall y | y in s
        ensures y <= x
      {
        if y != z { assert y in rest; }
      }
      assert x in s;
    } else {
      assert forall y :: y in s ==> y == z || y in rest;
    }
  }

  /** The latest of a non-empty set of days. */
  function MaxOf(s: set<int>): (x: int)
    requires s != {}
    ensures x in s && forall y :: y in s ==> y <= x
  {
    MaxExists(s);
    var x :| x in s && forall y :: y in s ==> y <= x;
    x
  }

  lemma AppendLatest(t: seq<int>, x: int)
    requires Increasing(t) && x !in Members(t)
    requires forall y :: y in Members(t) ==> y <= x
    ensures Increasing(t + [x]) && Members(t + [x]) == Members(t) + {x}
  {
    assert forall k :: 0 <= k < |t| ==> t[k] in Members(t);
  }

  /** `sorted(...)` of a set of days: ascending, with exactly its members. */
  function SortedKeys(s: set<int>): (r: seq<int>)
    ensures Increasing(r) && Members(r) == s
    decreases |s|
  {
    if s == {} then []
    else
      var x := MaxOf(s);
      var t := SortedKeys(s - {x});
      AppendLatest(t, x);
      t + [x]
  }

  /** Every holiday listed by `SortedKeys` is amended. */
  lemma HolidaysIn<L>(a: map<int, L>)
    ensures forall k :: 0 <= k < |SortedKeys(a.Keys)| ==> SortedKeys(a.Keys)[k] in a
  {
    var hs := SortedKeys(a.Keys);
    assert forall k :: 0 <= k < |hs| ==> hs[k] in Members(hs);
  }

  /** `extend_weekends`: the holidays of `a` in ascending order, each on a
      weekend day adding a day off next to its weekend. */
  function ExtendWeekends<L>(a: map<int, L>, how: How, newLabel: Option<L>, weekend: Option<seq<int>>): (r: map<int, L>)
  {
    var w := if weekend.Some? then weekend.value else DefaultWeekend;
    var hs := SortedKeys(a.Keys);
    HolidaysIn(a);
    ExtendFold(a, a, hs, how, newLabel, w)
  }

  /** `extend_weekends`, as the loop the source runs: holidays in ascending
      order, each probing from its weekend for a day not yet amended. */
  method Extend<L>(amendments: map<int, L>, how: How, newLabel: Option<L>, weekend: Option<seq<int>>)
    returns (r: map<int, L>)
    ensures r == ExtendWeekends(amendments, how, newLabel, weekend)
  {
    var w := if weekend.None? then DefaultWeekend else weekend.value;
    var holidays := SortedKeys(amendments.Keys);
    HolidaysIn(amendments);
    r := ExtendAll(amendments, holidays, how, newLabel, w);
  }

  /** The loop of `extend_weekends` over the holidays `hs`, in order. */
  method ExtendAll<L>(a: map<int, L>, hs: seq<int>, how: How, newLabel: Option<L>, weekend: seq<int>)
    returns (r: map<int, L>)
    requires forall k :: 0 <= k < |hs| ==> hs[k] in a
    ensures r == ExtendFold(a, a, hs, how, newLabel, weekend)
  {
    r := a;
    for i := 0 to |hs|
      invariant r == ExtendFold(a, a, hs[..i], how, newLabel, weekend)
    {
      r := ExtendNext(a, hs, i, r, how, newLabel, weekend);
    }
    assert hs[..|hs|] == hs;
  }

  /** One turn of the loop of `extend_weekends`: the holiday `hs[i]`. */
  method ExtendNext<L>(a: map<int, L>, hs: seq<int>, i: nat, m: map<int, L>, how: How, newLabel: Option<L>,
                       weekend: seq<int>) returns (r: map<int, L>)
    requires i < |hs| && forall k :: 0 <= k < |hs| ==> hs[k] in a
    requires m == ExtendFold(a, a, hs[..i], how, newLabel, weekend)
    ensures r == ExtendFold(a, a, hs[..i + 1], how, newLabel, weekend)
  {
    var holiday := hs[i];
    FoldKeeps(a, a, hs[..i], how, newLabel, weekend);
    var lbl := if newLabel.None? then m[holiday] else newLabel.value;
    r := ExtendHoliday(m, holiday, lbl, how, weekend);
    FoldPrefix(a, a, hs, i, how, newLabel, weekend);
  }

  lemma FoldPrefix<L>(a: map<int, L>, m: map<int, L>, hs: seq<int>, i: nat, how: How, newLabel: Option<L>,
                      weekend: seq<int>)
    requires i < |hs| && forall k :: 0 <= k < |hs| ==> hs[k] in a
    ensures ExtendFold(a, m, hs[..i + 1], how, newLabel, weekend)
            == ExtendStep(ExtendFold(a, m, hs[..i], how, newLabel, weekend), hs[i], HolidayLabel(a, hs[i], newLabel),
                          how, weekend)
  {
    assert hs[..i + 1][..i] == hs[..i];
  }

  /** The body of the loop of `extend_weekends` for one holiday. */
  method ExtendHoliday<L>(m: map<int, L>, holiday: int, lbl: L, how: How, weekend: seq<int>)
    returns (r: map<int, L>)
    ensures r == ExtendStep(m, holiday, lbl, how, weekend)
  {
    var loc := IndexOf(weekend, Weekday(holiday));
    if loc.None? {
      return m;
    }
    var firstStep, step;
    if how == Previous {
      firstStep, step := -(loc.value + 1), -1;
    } else if how == Next {
      firstStep, step := |weekend| - loc.value, 1;
    } else if loc.value < |weekend| / 2 {
      firstStep, step := -(loc.value + 1), -1;
    } else {
      firstStep, step := |weekend| - loc.value, 1;
    }
    assert holiday + firstStep == FirstProbe(holiday, how, loc.value, |weekend|);
    assert step == StepOf(how, loc.value, |weekend|);
    var newDay := ProbeFrom(m, holiday + firstStep, step);
    r := m[newDay := lbl];
  }

  /** The probing loop of `extend_weekends`: step from `d` while the day is
      already amended. */
  method ProbeFrom<L>(m: map<int, L>, d: int, step: int) returns (r: int)
    requires step == 1 || step == -1
    ensures r == Probe(m, d, step)
  {
    r := d;
    while r in m
      invariant Probe(m, r, step) == Probe(m, d, step)
      decreases |Ahead(m, r, step)|
    {
      AheadShrinks(m, r, step);
      r := r + step;
    }
  }

  // ----- properties of extend_weekends -----

  /** Days already amended keep their labels through the loop. */
  lemma {:induction false} FoldKeeps<L>(a: map<int, L>, m: map<int, L>, hs: seq<int>, how: How, newLabel: Option<L>,
                                        weekend: seq<int>)
    requires forall k :: 0 <= k < |hs| ==> hs[k] in a
    ensures var r := ExtendFold(a, m, hs, how, newLabel, weekend);
            forall k :: k in m ==> k in r && r[k] == m[k]
  {
    if hs != [] {
      FoldKeeps(a, m, hs[..|hs| - 1], how, newLabel, weekend);
    }
  }

  /** The original amendments are never overwritten. */
  lemma OriginalsKept<L>(a: map<int, L>, how: How, newLabel: Option<L>, weekend: Option<seq<int>>)
    ensures var r := ExtendWeekends(a, how, newLabel, weekend);
            forall k :: k in a ==> k in r && r[k] == a[k]
  {
    var w := if weekend.Some? then weekend.value else DefaultWeekend;
    var hs := SortedKeys(a.Keys);
    HolidaysIn(a);
    FoldKeeps(a, a, hs, how, newLabel, w);
  }

  /** The holidays of `hs` that fall on a weekend day. */
  function OnWeekend(hs: seq<int>, weekend: seq<int>): set<int>
  {
    set h | h in hs && Weekday(h) in weekend
  }

  /** Each weekend holiday of distinct `hs` adds exactly one day. */
  lemma {:induction false} FoldCount<L>(a: map<int, L>, m: map<int, L>, hs: seq<int>, how: How, newLabel: Option<L>,
                                        weekend: seq<int>)
    requires forall k :: 0 <= k < |hs| ==> hs[k] in a
    requires Increasing(hs)
    ensures |ExtendFold(a, m, hs, how, newLabel, weekend).Keys| == |m.Keys| + |OnWeekend(hs, weekend)|
  {
    if hs != [] {
      var init := hs[..|hs| - 1];
      var h := hs[|hs| - 1];
      FoldCount(a, m, init, how, newLabel, weekend);
      assert h !in init;
      if Weekday(h) in weekend {
        assert OnWeekend(hs, weekend) == OnWeekend(init, weekend) + {h};
      } else {
        assert OnWeekend(hs, weekend) == OnWeekend(init, weekend);
      }
    }
  }

  /** The holidays of `a` that fall on a weekend day. */
  function WeekendHolidays<L>(a: map<int, L>, weekend: seq<int>): set<int>
  {
    set h | h in a && Weekday(h) in weekend
  }

  /** Exactly one new day per weekend holiday. */
  lemma OneDayPerWeekendHoliday<L>(a: map<int, L>, how: How, newLabel: Option<L>, weekend: Option<seq<int>>)
    ensures var w := if weekend.Some? then weekend.value else DefaultWeekend;
            |ExtendWeekends(a, how, newLabel, weekend).Keys| == |a.Keys| + |WeekendHolidays(a, w)|
  {
    var w := if weekend.Some? then weekend.value else DefaultWeekend;
    var hs := SortedKeys(a.Keys);
    HolidaysIn(a);
    FoldCount(a, a, hs, how, newLabel, w);
    SameHolidays(a, hs, w);
  }

  lemma SameHolidays<L>(a: map<int, L>, hs: seq<int>, w: seq<int>)
    requires Members(hs) == a.Keys
    ensures OnWeekend(hs, w) == WeekendHolidays(a, w)
  {
    forall h
      ensures h in OnWeekend(hs, w) <==> h in WeekendHolidays(a, w)
    {
      assert h in hs <==> h in Members(hs);
    }
  }

  /** Holidays off the weekend add nothing. */
  lemma {:induction false} FoldOffWeekend<L>(a: map<int, L>, m: map<int, L>, hs: seq<int>, how: How,
                                             newLabel: Option<L>, weekend: seq<int>)
    requires forall k :: 0 <= k < |hs| ==> hs[k] in a
    requires forall k :: 0 <= k < |hs| ==> Weekday(hs[k]) !in weekend
    ensures ExtendFold(a, m, hs, how, newLabel, weekend) == m
  {
    if hs != [] {
      FoldOffWeekend(a, m, hs[..|hs| - 1], how, newLabel, weekend);
    }
  }

  /** No holiday on a weekend day (in particular an empty weekend) leaves
      the amendments as they are. */
  lemma NoWeekendHolidays<L>(a: map<int, L>, how: How, newLabel: Option<L>, weekend: Option<seq<int>>)
    requires forall h :: h in a ==> Weekday(h) !in (if weekend.Some? then weekend.value else DefaultWeekend)
    ensures ExtendWeekends(a, how, newLabel, weekend) == a
    ensures ExtendWeekends(a, how, newLabel, Some([])) == a
  {
    var w := if weekend.Some? then weekend.value else DefaultWeekend;
    var hs := SortedKeys(a.Keys);
    HolidaysIn(a);
    FoldOffWeekend(a, a, hs, how, newLabel, w);
    FoldOffWeekend(a, a, hs, how, newLabel, []);
  }

  /** Every added day carries the label of a weekend holiday processed
      before it: `label` when given, else that holiday's own. */
  lemma {:induction false} FoldLabels<L>(a: map<int, L>, m: map<int, L>, hs: seq<int>, how: How, newLabel: Option<L>,
                                         weekend: seq<int>)
    requires forall k :: 0 <= k < |hs| ==> hs[k] in a
    ensures var r := ExtendFold(a, m, hs, how, newLabel, weekend);
            forall d :: d in r && d !in m ==>
              exists k :: 0 <= k < |hs| && Weekday(hs[k]) in weekend && r[d] == HolidayLabel(a, hs[k], newLabel)
  {
    if hs != [] {
      var init := hs[..|hs| - 1];
      var h := hs[|hs| - 1];
      var prev := ExtendFold(a, m, init, how, newLabel, weekend);
      var r := ExtendFold(a, m, hs, how, newLabel, weekend);
      FoldLabels(a, m, init, how, newLabel, weekend);
      forall d | d in r && d !in m
        ensures exists k :: 0 <= k < |hs| && Weekday(hs[k]) in weekend && r[d] == HolidayLabel(a, hs[k], newLabel)
      {
        if d in prev {
          var k :| 0 <= k < |init| && Weekday(init[k]) in weekend && prev[d] == HolidayLabel(a, init[k], newLabel);
          assert hs[k] == init[k];
        } else {
          assert Weekday(hs[|hs| - 1]) in weekend && r[d] == HolidayLabel(a, hs[|hs| - 1], newLabel);
        }
      }
    }
  }

  /** The label of every added day: `label` when given, else the label of
      a weekend holiday. */
  lemma AddedLabels<L>(a: map<int, L>, how: How, newLabel: Option<L>, weekend: Option<seq<int>>)
    ensures var r := ExtendWeekends(a, how, newLabel, weekend);
            var w := if weekend.Some? then weekend.value else DefaultWeekend;
            forall d :: d in r && d !in a ==>
              && (newLabel.Some? ==> r[d] == newLabel.value)
              && (newLabel.None? ==> exists h :: h in a && Weekday(h) in w && r[d] == a[h])
  {
    var w := if weekend.Some? then weekend.value else DefaultWeekend;
    HolidaysIn(a);
    FoldAddedLabels(a, SortedKeys(a.Keys), how, newLabel, w);
  }

  lemma FoldAddedLabels<L>(a: map<int, L>, hs: seq<int>, how: How, newLabel: Option<L>, w: seq<int>)
    requires forall k :: 0 <= k < |hs| ==> hs[k] in a
    ensures var r := ExtendFold(a, a, hs, how, newLabel, w);
            forall d :: d in r && d !in a ==>
              && (newLabel.Some? ==> r[d] == newLabel.value)
              && (newLabel.None? ==> exists h :: h in a && Weekday(h) in w && r[d] == a[h])
  {
    FoldLabels(a, a, hs, how, newLabel, w);
    var r := ExtendFold(a, a, hs, how, newLabel, w);
    forall d | d in r && d !in a
      ensures newLabel.Some? ==> r[d] == newLabel.value
      ensures newLabel.None? ==> exists h :: h in a && Weekday(h) in w && r[d] == a[h]
    {
      var k :| 0 <= k < |hs| && Weekday(hs[k]) in w && r[d] == HolidayLabel(a, hs[k], newLabel);
      assert hs[k] in a;
    }
  }

  /** Holidays are processed in ascending order: with a Saturday holiday
      labeled 3 and a Sunday holiday labeled 5 (16 and 17 December 2017),
      going back gives Friday the label 3 and Thursday the label 5. */
  lemma AscendingOrder()
    ensures ExtendWeekends(map[736679 := 3, 736680 := 5], Previous, None, None)
            == map[736677 := 5, 736678 := 3, 736679 := 3, 736680 := 5]
  {
    var a := map[736679 := 3, 736680 := 5];
    WeekendKeysSorted(a);
    FoldFirstHoliday(a);
    FoldSecondHoliday(a);
    SundaySecond(a[736678 := 3]);
  }

  lemma FoldFirstHoliday(a: map<int, int>)
    requires a == map[736679 := 3, 736680 := 5]
    ensures ExtendFold(a, a, [736679], Previous, None, DefaultWeekend) == a[736678 := 3]
  {
    assert [736679][..0] == [];
    SaturdayFirst(a);
  }

  lemma FoldSecondHoliday(a: map<int, int>)
    requires a == map[736679 := 3, 736680 := 5]
    ensures ExtendFold(a, a, [736679, 736680], Previous, None, DefaultWeekend)
            == ExtendStep(ExtendFold(a, a, [736679], Previous, None, DefaultWeekend), 736680, 5, Previous, DefaultWeekend)
  {
    assert [736679, 736680][..1] == [736679];
  }

  lemma WeekendKeysSorted(a: map<int, int>)
    requires a.Keys == {736679, 736680}
    ensures SortedKeys(a.Keys) == [736679, 736680]
  {
    assert Members([736679, 736680]) == a.Keys;
    IncreasingUnique(SortedKeys(a.Keys), [736679, 736680]);
  }

  lemma SaturdayFirst(a: map<int, int>)
    requires a.Keys == {736679, 736680}
    ensures ExtendStep(a, 736679, 3, Previous, DefaultWeekend) == a[736678 := 3]
  {
    assert Weekday(736679) == 5;
    assert IndexOf(DefaultWeekend, 5) == Some(0);
    assert Probe(a, 736678, -1) == 736678;
  }

  lemma SundaySecond(m: map<int, int>)
    requires m.Keys == {736678, 736679, 736680}
    ensures ExtendStep(m, 736680, 5, Previous, DefaultWeekend) == m[736677 := 5]
  {
    assert Weekday(736680) == 6;
    assert IndexOf(DefaultWeekend, 6) == Some(1);
    assert Probe(m, 736677, -1) == 736677;
    assert Probe(m, 736678, -1) == 736677;
  }

  /** A tie under `nearest` goes forward: with a one-day weekend on
      Saturday, a Saturday holiday makes Sunday a day off. */
  lemma NearestTieGoesForward()
    ensures ExtendWeekends(map[736679 := 5], Nearest, None, Some([5])) == map[736679 := 5, 736680 := 5]
  {
    var a := map[736679 := 5];
    SingleKeySorted(a);
    FoldSingleHoliday(a);
    SaturdayForward(a);
  }

  lemma SingleKeySorted(a: map<int, int>)
    requires a.Keys == {736679}
    ensures SortedKeys(a.Keys) == [736679]
  {
    assert Members([736679]) == a.Keys;
    IncreasingUnique(SortedKeys(a.Keys), [736679]);
  }

  lemma FoldSingleHoliday(a: map<int, int>)
    requires a == map[736679 := 5]
    ensures ExtendFold(a, a, [736679], Nearest, None, [5]) == ExtendStep(a, 736679, 5, Nearest, [5])
  {
    assert [736679][..0] == [];
  }

  lemma SaturdayForward(a: map<int, int>)
    requires a.Keys == {736679}
    ensures ExtendStep(a, 736679, 5, Nearest, [5]) == a[736680 := 5]
  {
    assert Weekday(736679) == 5;
    assert IndexOf([5], 5) == Some(0);
    assert Probe(a, 736680, 1) == 736680;
  }

  // ----- calendar bounds and amendments -----

  /** `_check_time`: a point outside the calendar's `[start, end]`
      raises OutOfBounds. */
  function CheckTime(start: int, end: int, t: int): (r: Outcome)
    ensures r == Pass <==> start <= t <= end
    ensures r.Fail? ==> r.error == OutOfBounds
  {
    if start <= t <= end then Pass else Fail(OutOfBounds)
  }

  /** `_get_bounds`: the custom start and end where given (each checked,
      the start first), else the calendar's own. */
  function GetBounds(start: int, end: int, customStart: Option<int>, customEnd: Option<int>): (r: Result<(int, int)>)
    ensures r.Ok? <==> (customStart.Some? ==> start <= customStart.value <= end)
                       && (customEnd.Some? ==> start <= customEnd.value <= end)
    ensures r.Err? ==> r.error == OutOfBounds
    ensures r.Ok? ==> r.value.0 == (if customStart.Some? then customStart.value else start)
    ensures r.Ok? ==> r.value.1 == (if customEnd.Some? then customEnd.value else end)
  {
    var s := if customStart.Some? then customStart.value else start;
    var e := if customEnd.Some? then customEnd.value else end;
    if customStart.Some? && CheckTime(start, end, s).Fail? then Err(OutOfBounds)
    else if customEnd.Some? && CheckTime(start, end, e).Fail? then Err(OutOfBounds)
    else Ok((s, e))
  }

  /** `CalendarBase.amendments`: the custom amendments, or none. */
  function BaseAmendments<L>(custom: Option<map<int, L>>): (r: map<int, L>)
    ensures custom.Some? ==> r == custom.value
    ensures custom.None? ==> r == map[]
  {
    if custom.Some? then custom.value else map[]
  }

  /** The amendments `CalendarBase.__new__` passes on: none with
      `do_not_amend`, exactly the custom ones with `only_custom_amendments`
      (None when there are none), otherwise what the calendar's
      `amendments` gave. */
  function SelectAmendments<L>(doNotAmend: bool, onlyCustom: bool, custom: Option<map<int, L>>,
                               classAmendments: Option<map<int, L>>): (r: Option<map<int, L>>)
    ensures doNotAmend ==> r == Some(map[])
    ensures !doNotAmend && onlyCustom ==> r == custom
    ensures !doNotAmend && !onlyCustom ==> r == classAmendments
  {
    if doNotAmend then Some(map[])
    else if onlyCustom then custom
    else classAmendments
  }

  /** `CalendarBase.__new__` up to the timeboard: the bounds, then the
      amendments; the bounds are checked before any amendment is chosen. */
  function NewCalendar<L>(start: int, end: int, customStart: Option<int>, customEnd: Option<int>,
                          doNotAmend: bool, onlyCustom: bool, custom: Option<map<int, L>>,
                          classAmendments: Option<map<int, L>>): (r: Result<((int, int), Option<map<int, L>>)>)
    ensures r.Err? <==> GetBounds(start, end, customStart, customEnd).Err?
    ensures r.Err? ==> r.error == OutOfBounds
    ensures r.Ok? ==> r.value.0 == GetBounds(start, end, customStart, customEnd).value
    ensures r.Ok? ==> r.value.1 == SelectAmendments(doNotAmend, onlyCustom, custom, classAmendments)
  {
    match GetBounds(start, end, customStart, customEnd)
    case Err(e) => Err(e)
    case Ok(bounds) => Ok((bounds, SelectAmendments(doNotAmend, onlyCustom, custom, classAmendments)))
  }
}
