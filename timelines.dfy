// The timeline: a frame organized into labeled workshifts
// (timeboard/core.py: `_Timeline`).
//
// Organizing works in place on two scratch arrays of the frame's length:
// the label of every base unit and the compound mask (true where a
// workshift starts).  Afterwards the band of workshift starts is taken from
// the mask and every workshift gets the label of its first base unit.

module Timelines {
  import opened Errors
  import opened Indexing
  import opened Frames
  import opened Patterns
  import opened Organizers
  import opened Bands

  /** `s` with `w` written over it from position `at` on. */
  function Overwrite<L>(s: seq<L>, at: int, w: seq<L>): (r: seq<L>)
    ensures |r| == |s|
  {
    seq(|s|, i requires 0 <= i < |s| => if at <= i < at + |w| then w[i - at] else s[i])
  }

  predicate AllLabels<L>(items: seq<Layout<L>>)
  {
    forall k :: 0 <= k < |items| ==> items[k].Label?
  }

  /** The first base unit of span `s`, or one past the end when all spans are done. */
  function Frontier(spans: seq<Span>, s: nat, last: int): int
  {
    if s < |spans| then spans[s].first else last + 1
  }

  /** Between two states (labels l0, mask m0) and (l1, m1) only the labels
      of `lo..hi` and the mask after `lo` up to `hi` differ. */
  ghost predicate ChangedWithin<L>(l0: seq<L>, l1: seq<L>, m0: seq<bool>, m1: seq<bool>, lo: int, hi: int)
  {
    && |l1| == |l0| && |m1| == |m0|
    && (forall i :: 0 <= i < |l0| && !(lo <= i <= hi) ==> l1[i] == l0[i])
    && (forall i :: 0 <= i < |m0| && !(lo < i <= hi) ==> m1[i] == m0[i])
  }

  lemma ChangedWithinTrans<L>(l0: seq<L>, l1: seq<L>, l2: seq<L>, m0: seq<bool>, m1: seq<bool>, m2: seq<bool>,
                              lo: int, mid: int, hi: int)
    requires lo <= mid + 1 <= hi + 1
    requires ChangedWithin(l0, l1, m0, m1, lo, mid)
    requires ChangedWithin(l1, l2, m1, m2, mid + 1, hi)
    ensures ChangedWithin(l0, l2, m0, m2, lo, hi)
  {
  }

  lemma OverwriteWithin<L>(s: seq<L>, at: int, w: seq<L>, hi: int, m: seq<bool>)
    requires at + |w| <= hi + 1
    ensures ChangedWithin(s, Overwrite(s, at, w), m, m, at, hi)
  {
  }

  /** The mask entry at the first unit of every span is as it was. */
  predicate StartsKept(spans: seq<Span>, m0: seq<bool>, m1: seq<bool>)
  {
    |m1| == |m0| && forall t :: 0 <= t < |spans| && 0 <= spans[t].first < |m0| ==> m1[spans[t].first] == m0[spans[t].first]
  }

  /** Every span is one compound workshift labeled `placed[t]`: the label of
      its first unit is set, the rest of its units keep their labels and are
      masked out. */
  ghost predicate Compound<L>(spans: seq<Span>, placed: seq<L>, l0: seq<L>, l1: seq<L>, m1: seq<bool>)
  {
    && |placed| == |spans| && |l1| == |l0| && |m1| == |l0|
    && forall t :: 0 <= t < |spans| && 0 <= spans[t].first <= spans[t].last < |l0| ==>
         && l1[spans[t].first] == placed[t]
         && forall i :: spans[t].first < i <= spans[t].last ==> !m1[i] && l1[i] == l0[i]
  }

  /** The labels of a structure made of scalar labels only. */
  function Values<L>(items: seq<Layout<L>>): (r: seq<L>)
    requires AllLabels(items)
    ensures |r| == |items| && forall k :: 0 <= k < |items| ==> r[k] == items[k].value
  {
    seq(|items|, k requires 0 <= k < |items| => items[k].value)
  }

  /** One more span processed after spans `0..s-1`: the frame of the change grows. */
  lemma StartsKeptExtend<L>(spans: seq<Span>, s: nat, lo: int, l0: seq<L>, la: seq<L>, lb: seq<L>,
                            m0: seq<bool>, ma: seq<bool>, mb: seq<bool>)
    requires s < |spans|
    requires forall a, b :: 0 <= a < b < |spans| ==> spans[a].last < spans[b].first
    requires forall k :: 0 <= k < |spans| ==> spans[k].first <= spans[k].last
    requires lo <= spans[s].first
    requires StartsKept(spans[..s], m0, ma)
    requires ChangedWithin(l0, la, m0, ma, lo, spans[s].first - 1)
    requires ChangedWithin(la, lb, ma, mb, spans[s].first, spans[s].last)
    ensures StartsKept(spans[..s + 1], m0, mb)
  {
    var pre := spans[..s + 1];
    forall t | 0 <= t < |pre| && 0 <= pre[t].first < |m0|
      ensures mb[pre[t].first] == m0[pre[t].first]
    {
      assert pre[t] == spans[t];
      if t < s {
        assert spans[..s][t] == spans[t];
        assert spans[t].last < spans[s].first;
      }
    }
  }

  lemma CompoundExtend<L>(spans: seq<Span>, s: nat, lo: int, placed: seq<L>, v: L,
                          l0: seq<L>, la: seq<L>, lb: seq<L>, m0: seq<bool>, ma: seq<bool>, mb: seq<bool>)
    requires s < |spans|
    requires forall a, b :: 0 <= a < b < |spans| ==> spans[a].last < spans[b].first
    requires lo <= spans[s].first
    requires Compound(spans[..s], placed, l0, la, ma)
    requires ChangedWithin(l0, la, m0, ma, lo, spans[s].first - 1)
    requires ChangedWithin(la, lb, ma, mb, spans[s].first, spans[s].last)
    requires Compound([spans[s]], [v], la, lb, mb)
    ensures Compound(spans[..s + 1], placed + [v], l0, lb, mb)
  {
    var pre := spans[..s + 1];
    var out := placed + [v];
    forall t | 0 <= t < |pre| && 0 <= pre[t].first <= pre[t].last < |l0|
      ensures lb[pre[t].first] == out[t]
      ensures forall i :: pre[t].first < i <= pre[t].last ==> !mb[i] && lb[i] == l0[i]
    {
      assert pre[t] == spans[t];
      if t < s {
        assert spans[..s][t] == spans[t];
        assert spans[t].last < spans[s].first;
        assert out[t] == placed[t];
      } else {
        assert [spans[s]][0] == spans[s];
        assert out[t] == v;
      }
    }
  }

  /** Each span of a tiling of `lo..hi` lies inside it. */
  lemma SpanInside(spans: seq<Span>, s: nat, lo: int, hi: int)
    requires s < |spans| && SpanTiling(spans, lo, hi)
    ensures lo <= spans[s].first <= spans[s].last <= hi
  {
    SpanTilingOrdered(spans, lo, hi);
  }

  /** The frame invariants of the loop of `__organize` carried past span
      `s` of a tiling of `lo..hi`, once that span alone was changed. */
  lemma FrameStep<L>(spans: seq<Span>, s: nat, lo: int, hi: int,
                     l0: seq<L>, la: seq<L>, lb: seq<L>, m0: seq<bool>, ma: seq<bool>, mb: seq<bool>)
    requires s < |spans| && SpanTiling(spans, lo, hi)
    requires ChangedWithin(l0, la, m0, ma, lo, Frontier(spans, s, hi) - 1)
    requires StartsKept(spans[..s], m0, ma)
    requires ChangedWithin(la, lb, ma, mb, spans[s].first, spans[s].last)
    ensures ChangedWithin(l0, lb, m0, mb, lo, Frontier(spans, s + 1, hi) - 1)
    ensures StartsKept(spans[..s + 1], m0, mb)
  {
    SpanTilingOrdered(spans, lo, hi);
    assert Frontier(spans, s + 1, hi) == spans[s].last + 1;
    ChangedWithinTrans(l0, la, lb, m0, ma, mb, lo, spans[s].first - 1, spans[s].last);
    StartsKeptExtend(spans, s, lo, l0, la, lb, m0, ma, mb);
  }

  /** The labeling invariant of the loop of `__organize` carried past span
      `s`, once that span became one workshift labeled with the next label
      of the cycle. */
  lemma CycleStep<L>(spans: seq<Span>, s: nat, lo: int, hi: int, values: seq<L>, from: nat,
                     l0: seq<L>, la: seq<L>, lb: seq<L>, m0: seq<bool>, ma: seq<bool>, mb: seq<bool>)
    requires s < |spans| && SpanTiling(spans, lo, hi) && |values| > 0
    requires ChangedWithin(l0, la, m0, ma, lo, Frontier(spans, s, hi) - 1)
    requires Compound(spans[..s], Cycle(values, from, s), l0, la, ma)
    requires ChangedWithin(la, lb, ma, mb, spans[s].first, spans[s].last)
    requires Compound([spans[s]], [values[(from + s) % |values|]], la, lb, mb)
    ensures Compound(spans[..s + 1], Cycle(values, from, s + 1), l0, lb, mb)
  {
    SpanTilingOrdered(spans, lo, hi);
    CycleConcat(values, from, s, 1);
    assert Cycle(values, from + s, 1) == [values[(from + s) % |values|]];
    CompoundExtend(spans, s, lo, Cycle(values, from, s), values[(from + s) % |values|], l0, la, lb, m0, ma, mb);
  }

  lemma LabelAt<L>(items: seq<Layout<L>>, values: seq<L>, k: nat)
    requires AllLabels(items) && values == Values(items) && k < |items|
    ensures |values| == |items| && items[k].Label? && values[k] == items[k].value
  {
  }

  /** The invariant of the loop of `__organize` after `s` of the spans
      tiling `lo..hi`: only units before the next span changed, the start
      of every processed span is kept, and when the structure is labels
      only, every processed span is one workshift labeled from the cycle of
      `values` after `from` labels. */
  ghost predicate Placed<L>(spans: seq<Span>, s: nat, lo: int, hi: int, labeled: bool, values: seq<L>, from: nat,
                            l0: seq<L>, l1: seq<L>, m0: seq<bool>, m1: seq<bool>)
  {
    && s <= |spans|
    && ChangedWithin(l0, l1, m0, m1, lo, Frontier(spans, s, hi) - 1)
    && StartsKept(spans[..s], m0, m1)
    && (labeled ==> Compound(spans[..s], Cycle(values, from, s), l0, l1, m1))
  }

  lemma PlacedStep<L>(spans: seq<Span>, s: nat, lo: int, hi: int, labeled: bool, values: seq<L>, from: nat,
                      l0: seq<L>, la: seq<L>, lb: seq<L>, m0: seq<bool>, ma: seq<bool>, mb: seq<bool>)
    requires s < |spans| && SpanTiling(spans, lo, hi)
    requires Placed(spans, s, lo, hi, labeled, values, from, l0, la, m0, ma)
    requires ChangedWithin(la, lb, ma, mb, spans[s].first, spans[s].last)
    requires labeled ==> |values| > 0 && Compound([spans[s]], [values[(from + s) % |values|]], la, lb, mb)
    ensures Placed(spans, s + 1, lo, hi, labeled, values, from, l0, lb, m0, mb)
  {
    FrameStep(spans, s, lo, hi, l0, la, lb, m0, ma, mb);
    if labeled {
      CycleStep(spans, s, lo, hi, values, from, l0, la, lb, m0, ma, mb);
    }
  }

  /** The loop stopped at span `s`: still only `lo..hi` changed. */
  lemma PlacedStop<L>(spans: seq<Span>, s: nat, lo: int, hi: int, labeled: bool, values: seq<L>, from: nat,
                      l0: seq<L>, la: seq<L>, lb: seq<L>, m0: seq<bool>, ma: seq<bool>, mb: seq<bool>)
    requires s < |spans| && SpanTiling(spans, lo, hi)
    requires Placed(spans, s, lo, hi, labeled, values, from, l0, la, m0, ma)
    requires ChangedWithin(la, lb, ma, mb, spans[s].first, spans[s].last)
    ensures ChangedWithin(l0, lb, m0, mb, lo, hi)
  {
    SpanInside(spans, s, lo, hi);
    ChangedWithinTrans(l0, la, lb, m0, ma, mb, lo, spans[s].first - 1, hi);
  }

  lemma PlacedAll<L>(spans: seq<Span>, lo: int, hi: int, labeled: bool, values: seq<L>, from: nat,
                     l0: seq<L>, l1: seq<L>, m0: seq<bool>, m1: seq<bool>)
    requires Placed(spans, |spans|, lo, hi, labeled, values, from, l0, l1, m0, m1)
    ensures ChangedWithin(l0, l1, m0, m1, lo, hi)
    ensures StartsKept(spans, m0, m1)
    ensures labeled ==> Compound(spans, Cycle(values, from, |spans|), l0, l1, m1)
  {
    assert spans[..|spans|] == spans;
  }

  /** `__apply_pattern` on a RememberingPattern: `skip` labels drawn and
      dropped, then the `count` labels that follow. */
  method DrawAfter<L>(rp: RememberingPattern<L>, skip: nat, count: nat) returns (w: seq<L>)
    modifies rp
    ensures w == Cycle(rp.labels, old(rp.drawn) + skip, count)
    ensures rp.drawn == old(rp.drawn) + (if |rp.labels| == 0 then 0 else skip + count)
  {
    ghost var before := rp.drawn;
    var drawn := rp.Take(skip + count);
    CycleConcat(rp.labels, before, skip, count);
    assert |rp.labels| > 0 ==> |drawn| == skip + count;
    w := if |drawn| == 0 then [] else drawn[skip..];
  }

  /** Workshifts after the one containing `t` have reference times after `t`. */
  lemma LaterRefTimesAfter(f: Frame, b: Band, refIsEnd: bool, t: int)
    requires OnFrame(f, b) && WsPosition(f, b, t).Ok?
    ensures RefsAfter(f, b, refIsEnd, t, WsPosition(f, b, t).value)
  {
    forall j | WsPosition(f, b, t).value < j < |b.starts|
      ensures WsRefTime(f, b, refIsEnd, j) > t
    {
      LaterWorkshiftsStartAfter(f, b, t, j);
    }
  }

  /** The loop of `get_ws_pos_by_ref_before`: step back from workshift
      `start` while the reference time is after `t`; None past the first. */
  method ScanBack(f: Frame, b: Band, refIsEnd: bool, t: int, start: nat) returns (r: Option<nat>)
    requires OnFrame(f, b) && start < |b.starts|
    requires RefsAfter(f, b, refIsEnd, t, start)
    ensures r.None? ==> RefsAfter(f, b, refIsEnd, t, -1)
    ensures r.Some? ==> && r.value <= start && WsRefTime(f, b, refIsEnd, r.value) <= t
                        && RefsAfter(f, b, refIsEnd, t, r.value)
  {
    var candidate := start;
    while WsRefTime(f, b, refIsEnd, candidate) > t
      invariant 0 <= candidate <= start
      invariant RefsAfter(f, b, refIsEnd, t, candidate)
      decreases candidate
    {
      if candidate == 0 {
        return None;
      }
      candidate := candidate - 1;
    }
    return Some(candidate);
  }

  /** Every workshift after `lo` has its reference time after `t`. */
  ghost predicate RefsAfter(f: Frame, b: Band, refIsEnd: bool, t: int, lo: int)
    requires OnFrame(f, b)
  {
    forall j: nat :: lo < j < |b.starts| ==> WsRefTime(f, b, refIsEnd, j) > t
  }

  // ----- what organizing does, as a specification -----

  /** The state `__organize` works on: the label of every base unit, the
      compound mask, and how many labels each RememberingPattern has drawn. */
  datatype Scratch<L> = Scratch(labels: seq<L>, mask: seq<bool>, drawn: map<RememberingPattern<L>, nat>)

  /** The outcome of one step of organizing and the state after it. */
  datatype Step<L> = Step(outcome: Outcome, after: Scratch<L>)

  /** The position of `rp` recorded in `c` (0 for a pattern never drawn from). */
  function Drawn<L>(c: map<RememberingPattern<L>, nat>, rp: RememberingPattern<L>): nat
  {
    if rp in c then c[rp] else 0
  }

  /** The positions of the given patterns, as they are in the heap. */
  ghost function Cursors<L>(ps: set<RememberingPattern<L>>): (r: map<RememberingPattern<L>, nat>)
    reads ps
    ensures forall rp :: rp in ps ==> Drawn(r, rp) == rp.drawn
  {
    map rp | rp in ps :: rp.drawn
  }

  /** Apart from the patterns `ps`, every pattern is at the same position in `c0` and `c1`. */
  ghost predicate SameOutside<L>(c0: map<RememberingPattern<L>, nat>, c1: map<RememberingPattern<L>, nat>,
                                 ps: set<RememberingPattern<L>>)
  {
    forall q :: q in c0.Keys + c1.Keys && q !in ps ==> Drawn(c1, q) == Drawn(c0, q)
  }

  /** The mask with the units after the span's first one up to its last cleared. */
  function Cleared(m: seq<bool>, sp: Span): (r: seq<bool>)
    ensures |r| == |m|
    ensures forall i :: 0 <= i < |m| ==> r[i] == (if sp.first < i <= sp.last then false else m[i])
  {
    seq(|m|, i requires 0 <= i < |m| => if sp.first < i <= sp.last then false else m[i])
  }

  /** The scalar branch of `__organize`: the span becomes one compound
      workshift labeled `v`. */
  function LabelOf<L>(v: L, sp: Span, st: Scratch<L>): (r: Scratch<L>)
    requires sp.first <= sp.last
    ensures r.drawn == st.drawn
    ensures ChangedWithin(st.labels, r.labels, st.mask, r.mask, sp.first, sp.last)
    ensures |st.mask| == |st.labels| ==> Compound([sp], [v], st.labels, r.labels, r.mask)
  {
    var r := st.(labels := Overwrite(st.labels, sp.first, [v]), mask := Cleared(st.mask, sp));
    OverwriteWithin(st.labels, sp.first, [v], sp.last, st.mask);
    r
  }

  /** `__apply_pattern` on a plain pattern or a RememberingPattern: a
      negative left skip is OutOfBounds; otherwise the span gets the labels
      that follow `skipLeft` skipped ones, drawn from the start of a plain
      pattern or from the current position of a RememberingPattern, which
      moves past them. */
  function PatternOf<L>(layout: Layout<L>, sp: Span, st: Scratch<L>): (r: Step<L>)
    requires (layout.Pattern? || layout.Remembering?) && sp.first <= sp.last
    ensures r.outcome == (if sp.skipLeft < 0 then Fail(OutOfBounds) else Pass)
    ensures sp.skipLeft < 0 ==> r.after == st
    ensures r.after.mask == st.mask
    ensures ChangedWithin(st.labels, r.after.labels, st.mask, r.after.mask, sp.first, sp.last)
    ensures SameOutside(st.drawn, r.after.drawn, LayoutPatterns(layout))
  {
    if sp.skipLeft < 0 then Step(Fail(OutOfBounds), st)
    else
      var count := sp.last - sp.first + 1;
      if layout.Pattern? then
        var w := Skiperator(layout.labels, sp.skipLeft, count);
        SkiperatorAt(layout.labels, sp.skipLeft, count);
        OverwriteWithin(st.labels, sp.first, w, sp.last, st.mask);
        Step(Pass, st.(labels := Overwrite(st.labels, sp.first, w)))
      else
        var rp := layout.rp;
        var d := Drawn(st.drawn, rp);
        var w := Cycle(rp.labels, d + sp.skipLeft, count);
        OverwriteWithin(st.labels, sp.first, w, sp.last, st.mask);
        Step(Pass, st.(labels := Overwrite(st.labels, sp.first, w),
                       drawn := st.drawn[rp := if |rp.labels| == 0 then d else d + sp.skipLeft + count]))
  }

  /** Within span `sp`, labels `l1` read as `l0` with `w` written from the
      span's first base unit on. */
  ghost predicate SpanReads<L>(l1: seq<L>, l0: seq<L>, sp: Span, w: seq<L>)
  {
    forall i :: sp.first <= i <= sp.last ==> 0 <= i < |l1| && 0 <= i < |l0| && l1[i] == Overwrite(l0, sp.first, w)[i]
  }

  /** Two states agree on the labels and the mask of span `sp`. */
  ghost predicate SameOnSpan<L>(a: Scratch<L>, b: Scratch<L>, sp: Span)
  {
    forall i :: sp.first <= i <= sp.last ==>
      && 0 <= i < |a.labels| && 0 <= i < |b.labels| && 0 <= i < |a.mask| && 0 <= i < |b.mask|
      && a.labels[i] == b.labels[i] && a.mask[i] == b.mask[i]
  }

  /** The spans of `test_organize_pattern_with_memory`: the
      RememberingPattern moves seven places on each of its spans, and the
      spans get seven draws from where it stands, then seven `x`. */
  lemma MemoryPatternLabels<L>(items: seq<Layout<L>>, spans: seq<Span>, rp: RememberingPattern<L>, a: L, b: L, c: L, x: L)
    requires items == [Remembering(rp), Pattern([x]), Remembering(rp)] && rp.labels == [a, b, c]
    requires spans == [Span(0, 6, 0, 0), Span(7, 13, 0, 0), Span(14, 20, 0, 0)]
    ensures SkipsKnown(spans, |spans|)
    ensures Consumed(items, spans, |spans|) == 14
    ensures PatternLabels(items, spans, 0, 0) == [a, b, c, a, b, c, a]
    ensures PatternLabels(items, spans, 1, 0) == [x, x, x, x, x, x, x]
    ensures PatternLabels(items, spans, 2, 0) == [b, c, a, b, c, a, b]
  {
    assert SkipsKnown(spans, |spans|);
    ConsumedStep(items, spans, 1);
    ConsumedStep(items, spans, 2);
    ConsumedStep(items, spans, 3);
    SevenDraws(a, b, c, x);
  }

  /** The draws of `test_organize_pattern_with_memory`, seven at a time. */
  lemma SevenDraws<L>(a: L, b: L, c: L, x: L)
    ensures Cycle([a, b, c], 0, 7) == [a, b, c, a, b, c, a]
    ensures Cycle([a, b, c], 7, 7) == [b, c, a, b, c, a, b]
    ensures Skiperator([x], 0, 7) == [x, x, x, x, x, x, x]
  {
    SkiperatorAt([x], 0, 7);
  }

  /** The labels a pattern writes on a span with a known dangle. */
  lemma {:induction false} PatternOfLabels<L>(layout: Layout<L>, sp: Span, st: Scratch<L>)
    requires (layout.Pattern? || layout.Remembering?) && sp.first <= sp.last && sp.skipLeft >= 0
    ensures layout.Pattern? ==>
      PatternOf(layout, sp, st).after.labels
      == Overwrite(st.labels, sp.first, Skiperator(layout.labels, sp.skipLeft, sp.last - sp.first + 1))
    ensures layout.Remembering? ==>
      PatternOf(layout, sp, st).after.labels
      == Overwrite(st.labels, sp.first, Cycle(layout.rp.labels, Drawn(st.drawn, layout.rp) + sp.skipLeft,
                                              sp.last - sp.first + 1))
  {
  }

  /** The turn of a structure of patterns on span `k` writes the labels of
      `PatternLabels` once `rp` stands where the earlier spans left it. */
  lemma {:induction false} PatternTurn<L>(items: seq<Layout<L>>, spans: seq<Span>, k: nat, d0: nat, rp: RememberingPattern<L>, st: Scratch<L>)
    requires items != [] && k < |spans| && SkipsKnown(spans, k + 1) && PatternsWith(items, rp)
    requires forall t :: 0 <= t < |spans| ==> spans[t].first <= spans[t].last
    requires |rp.labels| > 0 ==> Drawn(st.drawn, rp) == d0 + Consumed(items, spans, k)
    ensures PatternOf(items[k % |items|], spans[k], st).after.labels
            == Overwrite(st.labels, spans[k].first, PatternLabels(items, spans, k, d0))
  {
    var layout, sp := items[k % |items|], spans[k];
    assert sp.skipLeft >= 0;
    PatternOfLabels(layout, sp, st);
    PatternLabelsAt(items, spans, k, d0, rp, st);
  }

  /** `PatternLabels` for span `k`, read off the layout of its turn and the
      current position of `rp`. */
  lemma {:induction false} PatternLabelsAt<L>(items: seq<Layout<L>>, spans: seq<Span>, k: nat, d0: nat, rp: RememberingPattern<L>, st: Scratch<L>)
    requires items != [] && k < |spans| && SkipsKnown(spans, k + 1) && PatternsWith(items, rp)
    requires forall t :: 0 <= t < |spans| ==> spans[t].first <= spans[t].last
    requires |rp.labels| > 0 ==> Drawn(st.drawn, rp) == d0 + Consumed(items, spans, k)
    ensures items[k % |items|].Pattern? ==>
      PatternLabels(items, spans, k, d0)
      == Skiperator(items[k % |items|].labels, spans[k].skipLeft, spans[k].last - spans[k].first + 1)
    ensures items[k % |items|].Remembering? ==>
      && items[k % |items|].rp == rp
      && PatternLabels(items, spans, k, d0)
         == Cycle(rp.labels, Drawn(st.drawn, rp) + spans[k].skipLeft, spans[k].last - spans[k].first + 1)
  {
  }

  /** The loop of `__organize` over a RememberingPattern structure after `n`
      of the spans: each span became one workshift labeled with the
      pattern's next label. */
  function DrawnLabelsOf<L>(rp: RememberingPattern<L>, spans: seq<Span>, lo: int, hi: int, n: nat,
                            st: Scratch<L>): (r: Scratch<L>)
    requires SpanTiling(spans, lo, hi) && n <= |spans|
    ensures ChangedWithin(st.labels, r.labels, st.mask, r.mask, lo, Frontier(spans, n, hi) - 1)
    ensures Drawn(r.drawn, rp) == Drawn(st.drawn, rp) + (if |rp.labels| == 0 then 0 else n)
    ensures SameOutside(st.drawn, r.drawn, {rp})
  {
    if n == 0 || |rp.labels| == 0 then st
    else
      var before := DrawnLabelsOf(rp, spans, lo, hi, n - 1, st);
      var d := Drawn(before.drawn, rp);
      SpanInside(spans, n - 1, lo, hi);
      var placed := LabelOf(rp.labels[d % |rp.labels|], spans[n - 1], before);
      var r := placed.(drawn := before.drawn[rp := d + 1]);
      FrontierNext(spans, n - 1, lo, hi);
      ChangedWithinTrans(st.labels, before.labels, r.labels, st.mask, before.mask, r.mask,
                         lo, spans[n - 1].first - 1, spans[n - 1].last);
      r
  }

  /** The span after span `s` of a tiling starts right after it. */
  lemma FrontierNext(spans: seq<Span>, s: nat, lo: int, hi: int)
    requires SpanTiling(spans, lo, hi) && s < |spans|
    ensures Frontier(spans, s, hi) == spans[s].first
    ensures Frontier(spans, s + 1, hi) == spans[s].last + 1
    ensures lo <= spans[s].first <= spans[s].last <= hi
  {
    SpanInside(spans, s, lo, hi);
  }

  /** Every one of the first `n` spans has a known left dangle. */
  predicate SkipsKnown(spans: seq<Span>, n: nat)
  {
    forall t :: 0 <= t < n && t < |spans| ==> spans[t].skipLeft >= 0
  }

  /** A structure of plain patterns and one RememberingPattern `rp`, used
      any number of times. */
  predicate PatternsWith<L>(items: seq<Layout<L>>, rp: RememberingPattern<L>)
  {
    forall k :: 0 <= k < |items| ==> items[k].Pattern? || (items[k].Remembering? && items[k].rp == rp)
  }

  /** How far the first `n` spans of a structure of patterns move a
      RememberingPattern: its dangle and its length for every span it fills. */
  function Consumed<L>(items: seq<Layout<L>>, spans: seq<Span>, n: nat): nat
    requires items != [] && n <= |spans| && SkipsKnown(spans, n)
    requires forall t :: 0 <= t < |spans| ==> spans[t].first <= spans[t].last
  {
    if n == 0 then 0
    else
      var sp := spans[n - 1];
      Consumed(items, spans, n - 1) + (if items[(n - 1) % |items|].Remembering? then sp.skipLeft + sp.last - sp.first + 1 else 0)
  }

  /** One more span moves the RememberingPattern by that span's dangle and
      length when the span is its turn, and not at all otherwise. */
  lemma ConsumedStep<L>(items: seq<Layout<L>>, spans: seq<Span>, n: nat)
    requires items != [] && 0 < n <= |spans| && SkipsKnown(spans, n)
    requires forall t :: 0 <= t < |spans| ==> spans[t].first <= spans[t].last
    ensures items[(n - 1) % |items|].Remembering? ==>
              Consumed(items, spans, n)
              == Consumed(items, spans, n - 1) + spans[n - 1].skipLeft + spans[n - 1].last - spans[n - 1].first + 1
    ensures !items[(n - 1) % |items|].Remembering? ==> Consumed(items, spans, n) == Consumed(items, spans, n - 1)
  {
  }

  /** The labels span `k` gets in a structure of patterns: those of its
      plain pattern after the dangle, or those of the RememberingPattern
      after where the earlier spans left it (`d0` at the start) and the dangle. */
  function PatternLabels<L>(items: seq<Layout<L>>, spans: seq<Span>, k: nat, d0: nat): seq<L>
    requires items != [] && k < |spans| && SkipsKnown(spans, k + 1)
    requires forall t :: 0 <= t < |spans| ==> spans[t].first <= spans[t].last
    requires items[k % |items|].Pattern? || items[k % |items|].Remembering?
  {
    var sp := spans[k];
    var count := sp.last - sp.first + 1;
    var layout := items[k % |items|];
    if layout.Pattern? then Skiperator(layout.labels, sp.skipLeft, count)
    else Cycle(layout.rp.labels, d0 + Consumed(items, spans, k) + sp.skipLeft, count)
  }

  class Timeline<L> {
    const frame: Frame
    const rules: PeriodRules
    const baseUnitFreq: string
    /** `workshift_ref == 'end'`. */
    const refIsEnd: bool
    /** `_ws_labels`: the label of each base unit while organizing. */
    const scratchLabels: array<L>
    /** `_ws_compound_mask`: true where a workshift starts. */
    const mask: array<bool>
    /** The index of `_wsband`: the first base unit of each workshift. */
    var band: Band
    /** The values of `_wsband`: the label of each workshift. */
    var wsLabels: seq<L>

    predicate ScratchReady()
    {
      && ValidFrame(frame)
      && scratchLabels.Length == |frame.starts|
      && mask.Length == |frame.starts|
      && scratchLabels as object != mask as object
    }

    ghost predicate Valid()
      reads this
    {
      ScratchReady() && OnFrame(frame, band) && |wsLabels| == |band.starts|
    }

    /** `_Timeline(frame, organizer=None, data=default)`: every base unit is a
        workshift labeled `default`. */
    constructor(frame: Frame, rules: PeriodRules, baseUnitFreq: string, refIsEnd: bool, default: L)
      requires ValidFrame(frame)
      ensures Valid()
      ensures this.frame == frame && this.rules == rules && this.baseUnitFreq == baseUnitFreq
      ensures this.refIsEnd == refIsEnd
      ensures band == Band(|frame.starts|, Range(|frame.starts|))
      ensures |wsLabels| == |frame.starts| && forall j :: 0 <= j < |wsLabels| ==> wsLabels[j] == default
      ensures forall i :: 0 <= i < scratchLabels.Length ==> scratchLabels[i] == default && mask[i]
      ensures fresh(scratchLabels) && fresh(mask)
    {
      var n := |frame.starts|;
      this.frame := frame;
      this.rules := rules;
      this.baseUnitFreq := baseUnitFreq;
      this.refIsEnd := refIsEnd;
      scratchLabels := new L[n](_ => default);
      mask := new bool[n](_ => true);
      RangeIncreasing(n);
      band := Band(n, Range(n));
      wsLabels := seq(n, _ => default);
    }

    /** Partitioning a span as the organizer prescribes: `partition_with_marker`
        or `partition_at_marks`. */
    function Partition(p: Partitioning, span: Span): (r: Result<seq<Span>>)
      requires ValidFrame(frame)
      ensures r.Ok? ==> CheckSpan(|frame.starts|, span) == Pass
      ensures r.Ok? ==> SpanTiling(r.value, span.first, span.last)
      ensures CheckSpan(|frame.starts|, span) != Pass ==> r.Err?
    {
      match p
      case ByMarker(m) => PartitionWithMarker(|frame.starts|, rules, baseUnitFreq, m, span)
      case AtMarks(ms) =>
        var r := CreateSubspans(|frame.starts|, span, ms);
        if r.Ok? then CreateSubspansTiles(|frame.starts|, span, ms); r else r
    }

    /** The arrays and the given patterns hold the state `st`. */
    ghost predicate Mirrors(st: Scratch<L>, ps: set<RememberingPattern<L>>)
      reads scratchLabels, mask, ps
    {
      && scratchLabels[..] == st.labels && mask[..] == st.mask
      && forall rp :: rp in ps ==> rp.drawn == Drawn(st.drawn, rp)
    }

    /** What `__organize` does to the state: a partition error stops it;
        otherwise the spans take the structure's layouts in turn. */
    function OrganizeOf(org: Organizer<L>, span: Span, st: Scratch<L>): (r: Step<L>)
      requires ValidFrame(frame)
      decreases org, 2
      ensures Partition(org.partitioning, span).Err? ==> r == Step(Fail(Partition(org.partitioning, span).error), st)
      ensures ChangedWithin(st.labels, r.after.labels, st.mask, r.after.mask, span.first, span.last)
      ensures SameOutside(st.drawn, r.after.drawn, OrganizerPatterns(org))
    {
      var p := Partition(org.partitioning, span);
      if p.Err? then Step(Fail(p.error), st)
      else
        FrontierNext(p.value, |p.value| - 1, span.first, span.last);
        match org.structure
        case Layouts(items) =>
          if items == [] then Step(Pass, st)
          else LayoutsOf(org, p.value, span.first, span.last, |p.value|, st)
        case RememberingLabels(rp) =>
          Step(Pass, DrawnLabelsOf(rp, p.value, span.first, span.last, |p.value|, st))
    }

    /** The loop of `__organize` over `zip(spans, cycle(structure))` after
        `n` of the spans: span `k` took layout `k mod len(structure)`, and
        the first error stops the loop. */
    function LayoutsOf(org: Organizer<L>, spans: seq<Span>, lo: int, hi: int, n: nat, st: Scratch<L>): (r: Step<L>)
      requires ValidFrame(frame)
      requires org.structure.Layouts? && org.structure.items != []
      requires SpanTiling(spans, lo, hi) && n <= |spans|
      decreases org, 1, n
      ensures ChangedWithin(st.labels, r.after.labels, st.mask, r.after.mask, lo, Frontier(spans, n, hi) - 1)
      ensures SameOutside(st.drawn, r.after.drawn, OrganizerPatterns(org))
    {
      if n == 0 then Step(Pass, st)
      else
        var items := org.structure.items;
        var before := LayoutsOf(org, spans, lo, hi, n - 1, st);
        FrontierNext(spans, n - 1, lo, hi);
        ItemPatternsIncluded(items, (n - 1) % |items|);
        var r := if before.outcome.Fail? then before
                 else LayoutOf(org, (n - 1) % |items|, spans[n - 1], before.after);
        ChangedWithinTrans(st.labels, before.after.labels, r.after.labels, st.mask, before.after.mask, r.after.mask,
                           lo, spans[n - 1].first - 1, spans[n - 1].last);
        r
    }

    /** One turn of the loop of `__organize`: layout `items[k]` on span `sp`
        (a nested organizer, a pattern, or a scalar label). */
    function LayoutOf(org: Organizer<L>, k: nat, sp: Span, st: Scratch<L>): (r: Step<L>)
      requires ValidFrame(frame)
      requires org.structure.Layouts? && k < |org.structure.items| && sp.first <= sp.last
      decreases org, 0
      ensures ChangedWithin(st.labels, r.after.labels, st.mask, r.after.mask, sp.first, sp.last)
      ensures SameOutside(st.drawn, r.after.drawn, LayoutPatterns(org.structure.items[k]))
    {
      match org.structure.items[k]
      case Nested(o) => OrganizeOf(o, sp, st)
      case Pattern(_) => PatternOf(org.structure.items[k], sp, st)
      case Remembering(_) => PatternOf(org.structure.items[k], sp, st)
      case Label(v) => Step(Pass, LabelOf(v, sp, st))
    }

    /** One more turn of the loop of `__organize` after turns without error. */
    lemma LayoutsNext(org: Organizer<L>, spans: seq<Span>, lo: int, hi: int, n: nat, st: Scratch<L>)
      requires ValidFrame(frame)
      requires org.structure.Layouts? && org.structure.items != []
      requires SpanTiling(spans, lo, hi) && n < |spans|
      requires LayoutsOf(org, spans, lo, hi, n, st).outcome == Pass
      ensures spans[n].first <= spans[n].last
      ensures LayoutsOf(org, spans, lo, hi, n + 1, st)
              == LayoutOf(org, n % |org.structure.items|, spans[n], LayoutsOf(org, spans, lo, hi, n, st).after)
    {
      SpanInside(spans, n, lo, hi);
    }

    /** The loop of `__organize` keeps to the spans it has reached and keeps
        their first mask entries; with a structure of scalar labels only,
        span `k` became one workshift labeled `structure[k mod len]`. */
    lemma {:induction false} LayoutsPlaced(org: Organizer<L>, spans: seq<Span>, lo: int, hi: int, n: nat, st: Scratch<L>)
      requires ValidFrame(frame)
      requires org.structure.Layouts? && org.structure.items != []
      requires SpanTiling(spans, lo, hi) && n <= |spans| && |st.mask| == |st.labels|
      requires LayoutsOf(org, spans, lo, hi, n, st).outcome == Pass
      ensures var items := org.structure.items;
        Placed(spans, n, lo, hi, AllLabels(items), if AllLabels(items) then Values(items) else [], 0,
               st.labels, LayoutsOf(org, spans, lo, hi, n, st).after.labels,
               st.mask, LayoutsOf(org, spans, lo, hi, n, st).after.mask)
      decreases n
    {
      var items := org.structure.items;
      var labeled := AllLabels(items);
      var values := if labeled then Values(items) else [];
      if n == 0 {
        assert spans[..0] == [];
      } else {
        var before := LayoutsOf(org, spans, lo, hi, n - 1, st);
        assert before.outcome == Pass;
        LayoutsPlaced(org, spans, lo, hi, n - 1, st);
        LayoutsNext(org, spans, lo, hi, n - 1, st);
        var after := LayoutsOf(org, spans, lo, hi, n, st).after;
        if labeled {
          LabelAt(items, values, (n - 1) % |items|);
        }
        PlacedStep(spans, n - 1, lo, hi, labeled, values, 0, st.labels, before.after.labels, after.labels,
                   st.mask, before.after.mask, after.mask);
      }
    }

    /** The loop of `__organize` pairs span `k` with `structure[k mod len]`:
        when the loop got through `n > k` spans, its turn on span `k` got
        through, and span `k` keeps the labels and mask that turn gave it. */
    lemma {:induction false} LayoutsSpan(org: Organizer<L>, spans: seq<Span>, lo: int, hi: int, n: nat, st: Scratch<L>, k: nat)
      requires ValidFrame(frame)
      requires org.structure.Layouts? && org.structure.items != []
      requires SpanTiling(spans, lo, hi) && k < n <= |spans|
      requires 0 <= lo && hi < |st.labels| && |st.mask| == |st.labels|
      requires LayoutsOf(org, spans, lo, hi, n, st).outcome == Pass
      ensures LayoutsOf(org, spans, lo, hi, k, st).outcome == Pass
      ensures lo <= spans[k].first <= spans[k].last <= hi
      ensures var turn := LayoutOf(org, k % |org.structure.items|, spans[k], LayoutsOf(org, spans, lo, hi, k, st).after);
        var after := LayoutsOf(org, spans, lo, hi, n, st).after;
        && turn.outcome == Pass
        && |turn.after.labels| == |after.labels| == |st.labels| && |turn.after.mask| == |after.mask| == |st.mask|
        && (forall i :: spans[k].first <= i <= spans[k].last ==> after.labels[i] == turn.after.labels[i])
        && (forall i :: spans[k].first <= i <= spans[k].last ==> after.mask[i] == turn.after.mask[i])
      decreases n
    {
      var before := LayoutsOf(org, spans, lo, hi, n - 1, st);
      assert before.outcome == Pass;
      LayoutsNext(org, spans, lo, hi, n - 1, st);
      SpanInside(spans, k, lo, hi);
      if k < n - 1 {
        LayoutsSpan(org, spans, lo, hi, n - 1, st, k);
        SpanTilingOrdered(spans, lo, hi);
        assert spans[k].last < spans[n - 1].first;
      }
    }

    /** A structure of plain patterns and one RememberingPattern `rp`: the
        loop fails with OutOfBounds exactly when a span has no known left
        dangle; otherwise the mask is kept and `rp` has moved on by the
        dangles and lengths of the spans it filled. */
    lemma {:induction false} LayoutsOfPatterns(org: Organizer<L>, spans: seq<Span>, lo: int, hi: int, n: nat,
                                               st: Scratch<L>, rp: RememberingPattern<L>)
      requires ValidFrame(frame)
      requires org.structure.Layouts? && org.structure.items != [] && PatternsWith(org.structure.items, rp)
      requires SpanTiling(spans, lo, hi) && n <= |spans|
      ensures LayoutsOf(org, spans, lo, hi, n, st).outcome == (if SkipsKnown(spans, n) then Pass else Fail(OutOfBounds))
      ensures SkipsKnown(spans, n) ==>
        && LayoutsOf(org, spans, lo, hi, n, st).after.mask == st.mask
        && Drawn(LayoutsOf(org, spans, lo, hi, n, st).after.drawn, rp)
           == Drawn(st.drawn, rp) + (if |rp.labels| == 0 then 0 else Consumed(org.structure.items, spans, n))
      decreases n
    {
      if n > 0 {
        var items := org.structure.items;
        var before := LayoutsOf(org, spans, lo, hi, n - 1, st);
        LayoutsOfPatterns(org, spans, lo, hi, n - 1, st, rp);
        if before.outcome.Pass? {
          LayoutsNext(org, spans, lo, hi, n - 1, st);
          var layout := items[(n - 1) % |items|];
          var step := LayoutsOf(org, spans, lo, hi, n, st);
          assert step == PatternOf(layout, spans[n - 1], before.after);
          if SkipsKnown(spans, n) {
            assert spans[n - 1].skipLeft >= 0;
            if layout.Pattern? {
              assert rp !in LayoutPatterns(layout);
              assert Drawn(step.after.drawn, rp) == Drawn(before.after.drawn, rp) by {
                assert rp in before.after.drawn.Keys + step.after.drawn.Keys ==>
                  Drawn(step.after.drawn, rp) == Drawn(before.after.drawn, rp);
              }
            }
          } else {
            assert spans[n - 1].skipLeft < 0;
          }
        } else {
          assert !SkipsKnown(spans, n);
        }
      }
    }

    /** In a structure of plain patterns and one RememberingPattern `rp`,
        span `k` gets the labels of its pattern after the dangle; for `rp`
        the cycle resumes where the earlier spans left it. */
    lemma {:induction false} PatternSpan(org: Organizer<L>, spans: seq<Span>, lo: int, hi: int, n: nat,
                      st: Scratch<L>, rp: RememberingPattern<L>, k: nat)
      requires ValidFrame(frame)
      requires org.structure.Layouts? && org.structure.items != [] && PatternsWith(org.structure.items, rp)
      requires SpanTiling(spans, lo, hi) && k < n <= |spans| && SkipsKnown(spans, n)
      requires 0 <= lo && hi < |st.labels| && |st.mask| == |st.labels|
      ensures SpanReads(LayoutsOf(org, spans, lo, hi, n, st).after.labels, st.labels, spans[k],
                        PatternLabels(org.structure.items, spans, k, Drawn(st.drawn, rp)))
    {
      var items := org.structure.items;
      var d0 := Drawn(st.drawn, rp);
      LayoutsOfPatterns(org, spans, lo, hi, n, st, rp);
      LayoutsSpan(org, spans, lo, hi, n, st, k);
      assert SkipsKnown(spans, k);
      LayoutsOfPatterns(org, spans, lo, hi, k, st, rp);
      FrontierNext(spans, k, lo, hi);
      var before := LayoutsOf(org, spans, lo, hi, k, st).after;
      var turn := PatternOf(items[k % |items|], spans[k], before);
      assert turn == LayoutOf(org, k % |items|, spans[k], before);
      PatternTurn(items, spans, k, d0, rp, before);
      var w := PatternLabels(items, spans, k, d0);
      assert turn.after.labels == Overwrite(before.labels, spans[k].first, w);
      var after := LayoutsOf(org, spans, lo, hi, n, st).after;
      forall i | spans[k].first <= i <= spans[k].last
        ensures 0 <= i < |after.labels| && 0 <= i < |st.labels|
        ensures after.labels[i] == Overwrite(st.labels, spans[k].first, w)[i]
      {
        assert after.labels[i] == turn.after.labels[i];
        assert before.labels[i] == st.labels[i];
      }
    }

    /** Every span the loop of `__organize` went through with a structure
        of patterns got the labels of `PatternLabels`. */
    lemma {:induction false} PatternSpans(org: Organizer<L>, spans: seq<Span>, lo: int, hi: int, n: nat,
                                          st: Scratch<L>, rp: RememberingPattern<L>)
      requires ValidFrame(frame)
      requires org.structure.Layouts? && org.structure.items != [] && PatternsWith(org.structure.items, rp)
      requires SpanTiling(spans, lo, hi) && n <= |spans| && SkipsKnown(spans, n)
      requires 0 <= lo && hi < |st.labels| && |st.mask| == |st.labels|
      ensures forall k :: 0 <= k < n ==>
        SpanReads(LayoutsOf(org, spans, lo, hi, n, st).after.labels, st.labels, spans[k],
                  PatternLabels(org.structure.items, spans, k, Drawn(st.drawn, rp)))
    {
      forall k | 0 <= k < n
        ensures SpanReads(LayoutsOf(org, spans, lo, hi, n, st).after.labels, st.labels, spans[k],
                          PatternLabels(org.structure.items, spans, k, Drawn(st.drawn, rp)))
      {
        PatternSpan(org, spans, lo, hi, n, st, rp, k);
      }
    }

    /** `__organize` with a structure of plain patterns and one
        RememberingPattern `rp` (the one of
        `test_organize_pattern_with_memory`): it fails with OutOfBounds
        exactly when a span of the partition has no known left dangle;
        otherwise every span of the partition gets the labels of its own
        pattern after its dangle, the RememberingPattern continuing across
        the spans it fills, and the mask is kept. */
    lemma {:induction false} OrganizePatterns(org: Organizer<L>, span: Span, st: Scratch<L>, rp: RememberingPattern<L>)
      requires ValidFrame(frame) && Partition(org.partitioning, span).Ok?
      requires org.structure.Layouts? && org.structure.items != [] && PatternsWith(org.structure.items, rp)
      requires |st.labels| == |frame.starts| && |st.mask| == |st.labels|
      ensures var spans := Partition(org.partitioning, span).value;
        OrganizeOf(org, span, st).outcome == (if SkipsKnown(spans, |spans|) then Pass else Fail(OutOfBounds))
      ensures var spans := Partition(org.partitioning, span).value;
        var after := OrganizeOf(org, span, st).after;
        SkipsKnown(spans, |spans|) ==>
          && after.mask == st.mask
          && Drawn(after.drawn, rp)
             == Drawn(st.drawn, rp) + (if |rp.labels| == 0 then 0 else Consumed(org.structure.items, spans, |spans|))
          && forall k :: 0 <= k < |spans| ==>
               SpanReads(after.labels, st.labels, spans[k], PatternLabels(org.structure.items, spans, k, Drawn(st.drawn, rp)))
    {
      var spans := Partition(org.partitioning, span).value;
      assert CheckSpan(|frame.starts|, span) == Pass;
      var step := LayoutsOf(org, spans, span.first, span.last, |spans|, st);
      assert OrganizeOf(org, span, st) == step;
      LayoutsOfPatterns(org, spans, span.first, span.last, |spans|, st, rp);
      if SkipsKnown(spans, |spans|) {
        PatternSpans(org, spans, span.first, span.last, |spans|, st, rp);
      }
    }

    /** `__organize` over a list structure zips the spans of the partition
        with `cycle(structure)`: when it got through, the turn of every span
        `k` with `structure[k mod len]` got through, and span `k` ends up as
        that turn left it. */
    lemma {:induction false} OrganizeSpans(org: Organizer<L>, span: Span, st: Scratch<L>)
      requires ValidFrame(frame) && Partition(org.partitioning, span).Ok?
      requires org.structure.Layouts? && org.structure.items != []
      requires |st.labels| == |frame.starts| && |st.mask| == |st.labels|
      requires OrganizeOf(org, span, st).outcome == Pass
      ensures var spans := Partition(org.partitioning, span).value;
        forall k :: 0 <= k < |spans| ==>
          var before := LayoutsOf(org, spans, span.first, span.last, k, st);
          && before.outcome == Pass
          && spans[k].first <= spans[k].last
          && LayoutOf(org, k % |org.structure.items|, spans[k], before.after).outcome == Pass
          && SameOnSpan(OrganizeOf(org, span, st).after,
                        LayoutOf(org, k % |org.structure.items|, spans[k], before.after).after, spans[k])
    {
      var spans := Partition(org.partitioning, span).value;
      assert CheckSpan(|frame.starts|, span) == Pass;
      assert OrganizeOf(org, span, st) == LayoutsOf(org, spans, span.first, span.last, |spans|, st);
      forall k | 0 <= k < |spans|
        ensures var before := LayoutsOf(org, spans, span.first, span.last, k, st);
          && before.outcome == Pass
          && spans[k].first <= spans[k].last
          && LayoutOf(org, k % |org.structure.items|, spans[k], before.after).outcome == Pass
          && SameOnSpan(OrganizeOf(org, span, st).after,
                        LayoutOf(org, k % |org.structure.items|, spans[k], before.after).after, spans[k])
      {
        LayoutsSpan(org, spans, span.first, span.last, |spans|, st, k);
      }
    }

    /** `test_organize_pattern_with_memory`: three spans of seven base
        units under `[rp, [x], rp]` with `rp` cycling `a, b, c`; the third
        span resumes the cycle where the first left it. */
    lemma {:induction false} MemoryAcrossSpans(org: Organizer<L>, spans: seq<Span>, st: Scratch<L>,
                                               rp: RememberingPattern<L>, a: L, b: L, c: L, x: L)
      requires ValidFrame(frame)
      requires org.structure == Layouts([Remembering(rp), Pattern([x]), Remembering(rp)])
      requires spans == [Span(0, 6, 0, 0), Span(7, 13, 0, 0), Span(14, 20, 0, 0)]
      requires rp.labels == [a, b, c] && Drawn(st.drawn, rp) == 0
      requires |st.labels| == 21 && |st.mask| == 21
      ensures SpanTiling(spans, 0, 20)
      ensures var r := LayoutsOf(org, spans, 0, 20, |spans|, st);
        && r.outcome == Pass
        && r.after.labels == [a, b, c, a, b, c, a] + [x, x, x, x, x, x, x] + [b, c, a, b, c, a, b]
        && Drawn(r.after.drawn, rp) == 14
    {
      var items := org.structure.items;
      assert SpanTiling(spans, 0, 20);
      assert PatternsWith(items, rp);
      assert SkipsKnown(spans, |spans|);
      MemoryPatternLabels(items, spans, rp, a, b, c, x);
      LayoutsOfPatterns(org, spans, 0, 20, |spans|, st, rp);
      var after := LayoutsOf(org, spans, 0, 20, |spans|, st).after;
      var w0, w1, w2 := [a, b, c, a, b, c, a], [x, x, x, x, x, x, x], [b, c, a, b, c, a, b];
      forall i | 0 <= i < 21
        ensures after.labels[i] == (w0 + w1 + w2)[i]
      {
        if i < 7 {
          PatternSpan(org, spans, 0, 20, |spans|, st, rp, 0);
          assert SpanReads(after.labels, st.labels, spans[0], w0);
          assert after.labels[i] == Overwrite(st.labels, 0, w0)[i] == w0[i];
        } else if i < 14 {
          PatternSpan(org, spans, 0, 20, |spans|, st, rp, 1);
          assert SpanReads(after.labels, st.labels, spans[1], w1);
          assert after.labels[i] == Overwrite(st.labels, 7, w1)[i] == w1[i - 7];
        } else {
          PatternSpan(org, spans, 0, 20, |spans|, st, rp, 2);
          assert SpanReads(after.labels, st.labels, spans[2], w2);
          assert after.labels[i] == Overwrite(st.labels, 14, w2)[i] == w2[i - 14];
        }
      }
      assert after.labels == w0 + w1 + w2;
    }

    /** After an error the loop of `__organize` does nothing more. */
    lemma LayoutsStopAt(org: Organizer<L>, spans: seq<Span>, lo: int, hi: int, n: nat, st: Scratch<L>)
      requires ValidFrame(frame)
      requires org.structure.Layouts? && org.structure.items != []
      requires SpanTiling(spans, lo, hi) && n <= |spans|
      requires LayoutsOf(org, spans, lo, hi, n, st).outcome.Fail?
      ensures LayoutsOf(org, spans, lo, hi, |spans|, st) == LayoutsOf(org, spans, lo, hi, n, st)
      decreases |spans| - n
    {
      if n < |spans| {
        LayoutsStopAt(org, spans, lo, hi, n + 1, st);
      }
    }

    /** `__apply_pattern`: write the pattern's labels over the span, cycling
        after `skipLeft` idle steps; an empty pattern writes nothing. */
    method ApplyPattern(layout: Layout<L>, span: Span, ghost st0: Scratch<L>) returns (r: Outcome)
      requires ScratchReady()
      requires layout.Pattern? || layout.Remembering?
      requires 0 <= span.first <= span.last < scratchLabels.Length
      requires Mirrors(st0, LayoutPatterns(layout))
      modifies scratchLabels, LayoutPatterns(layout)
      ensures r == PatternOf(layout, span, st0).outcome && Mirrors(PatternOf(layout, span, st0).after, LayoutPatterns(layout))
      ensures ChangedWithin(old(scratchLabels[..]), scratchLabels[..], mask[..], mask[..], span.first, span.last)
      ensures span.skipLeft < 0 ==> r == Fail(OutOfBounds) && unchanged(scratchLabels)
      ensures span.skipLeft < 0 && layout.Remembering? ==> layout.rp.drawn == old(layout.rp.drawn)
      ensures span.skipLeft >= 0 ==> r == Pass
      ensures span.skipLeft >= 0 && layout.Pattern? ==>
        scratchLabels[..] == Overwrite(old(scratchLabels[..]), span.first,
                                       Skiperator(layout.labels, span.skipLeft, span.last - span.first + 1))
      ensures span.skipLeft >= 0 && layout.Remembering? ==>
        && scratchLabels[..] == Overwrite(old(scratchLabels[..]), span.first,
                                          Cycle(layout.rp.labels, old(layout.rp.drawn) + span.skipLeft,
                                                span.last - span.first + 1))
        && layout.rp.drawn == old(layout.rp.drawn)
                              + (if |layout.rp.labels| == 0 then 0 else span.skipLeft + span.last - span.first + 1)
    {
      if span.skipLeft < 0 {
        return Fail(OutOfBounds);
      }
      if layout.Pattern? {
        r := ApplyPlainPattern(layout, span, st0);
      } else {
        r := ApplyRememberingPattern(layout, span, st0);
      }
    }

    /** `__apply_pattern` on a plain pattern with a known left skip. */
    method ApplyPlainPattern(layout: Layout<L>, span: Span, ghost st0: Scratch<L>) returns (r: Outcome)
      requires ScratchReady()
      requires layout.Pattern? && span.skipLeft >= 0
      requires 0 <= span.first <= span.last < scratchLabels.Length
      requires Mirrors(st0, LayoutPatterns(layout))
      modifies scratchLabels
      ensures r == PatternOf(layout, span, st0).outcome && Mirrors(PatternOf(layout, span, st0).after, LayoutPatterns(layout))
      ensures ChangedWithin(old(scratchLabels[..]), scratchLabels[..], mask[..], mask[..], span.first, span.last)
      ensures r == Pass
      ensures scratchLabels[..] == Overwrite(old(scratchLabels[..]), span.first,
                                             Skiperator(layout.labels, span.skipLeft, span.last - span.first + 1))
    {
      var count := span.last - span.first + 1;
      SkiperatorAt(layout.labels, span.skipLeft, count);
      var w := Skiperator(layout.labels, span.skipLeft, count);
      WriteRun(span.first, w);
      OverwriteWithin(old(scratchLabels[..]), span.first, w, span.last, mask[..]);
      return Pass;
    }

    /** `__apply_pattern` on a RememberingPattern with a known left skip. */
    method ApplyRememberingPattern(layout: Layout<L>, span: Span, ghost st0: Scratch<L>) returns (r: Outcome)
      requires ScratchReady()
      requires layout.Remembering? && span.skipLeft >= 0
      requires 0 <= span.first <= span.last < scratchLabels.Length
      requires Mirrors(st0, LayoutPatterns(layout))
      modifies scratchLabels, layout.rp
      ensures r == PatternOf(layout, span, st0).outcome && Mirrors(PatternOf(layout, span, st0).after, LayoutPatterns(layout))
      ensures ChangedWithin(old(scratchLabels[..]), scratchLabels[..], mask[..], mask[..], span.first, span.last)
      ensures r == Pass
      ensures && scratchLabels[..] == Overwrite(old(scratchLabels[..]), span.first,
                                                Cycle(layout.rp.labels, old(layout.rp.drawn) + span.skipLeft,
                                                      span.last - span.first + 1))
              && layout.rp.drawn == old(layout.rp.drawn)
                                    + (if |layout.rp.labels| == 0 then 0 else span.skipLeft + span.last - span.first + 1)
    {
      var count := span.last - span.first + 1;
      var w := DrawAfter(layout.rp, span.skipLeft, count);
      WriteRun(span.first, w);
      OverwriteWithin(old(scratchLabels[..]), span.first, w, span.last, mask[..]);
      return Pass;
    }

    /** Write the labels `w` from base unit `at` on. */
    method WriteRun(at: nat, w: seq<L>)
      requires ScratchReady()
      requires at + |w| <= scratchLabels.Length
      modifies scratchLabels
      ensures scratchLabels[..] == Overwrite(old(scratchLabels[..]), at, w)
    {
      var k := 0;
      while k < |w|
        invariant 0 <= k <= |w|
        invariant forall i :: 0 <= i < scratchLabels.Length ==>
          scratchLabels[i] == (if at <= i < at + k then w[i - at] else old(scratchLabels[i]))
      {
        scratchLabels[at + k] := w[k];
        k := k + 1;
      }
      assert scratchLabels[..] == Overwrite(old(scratchLabels[..]), at, w);
    }

    /** Make the span one compound workshift: clear the mask after its first unit. */
    method MakeCompound(sp: Span)
      requires ScratchReady()
      requires 0 <= sp.first <= sp.last < mask.Length
      modifies mask
      ensures forall i :: 0 <= i < mask.Length ==>
        mask[i] == (if sp.first < i <= sp.last then false else old(mask[i]))
    {
      var i := sp.first + 1;
      while i <= sp.last
        invariant sp.first + 1 <= i <= sp.last + 1
        invariant forall k :: 0 <= k < mask.Length ==>
          mask[k] == (if sp.first < k < i then false else old(mask[k]))
      {
        mask[i] := false;
        i := i + 1;
      }
    }

    /** A scalar layout: the span becomes one workshift labeled `v`. */
    method PlaceLabel(v: L, sp: Span)
      requires ScratchReady()
      requires 0 <= sp.first <= sp.last < scratchLabels.Length
      modifies scratchLabels, mask
      ensures ChangedWithin(old(scratchLabels[..]), scratchLabels[..], old(mask[..]), mask[..], sp.first, sp.last)
      ensures Compound([sp], [v], old(scratchLabels[..]), scratchLabels[..], mask[..])
      ensures scratchLabels[..] == Overwrite(old(scratchLabels[..]), sp.first, [v])
      ensures mask[..] == Cleared(old(mask[..]), sp)
    {
      scratchLabels[sp.first] := v;
      MakeCompound(sp);
      assert scratchLabels[..] == Overwrite(old(scratchLabels[..]), sp.first, [v]);
      assert mask[..] == Cleared(old(mask[..]), sp);
    }

    /** One step of the loop over a RememberingPattern structure: draw its
        next label and make the span one workshift with it. */
    method PlaceNextLabel(rp: RememberingPattern<L>, sp: Span) returns (v: L)
      requires ScratchReady() && |rp.labels| > 0
      requires 0 <= sp.first <= sp.last < scratchLabels.Length
      modifies scratchLabels, mask, rp
      ensures v == rp.labels[old(rp.drawn) % |rp.labels|] && rp.drawn == old(rp.drawn) + 1
      ensures ChangedWithin(old(scratchLabels[..]), scratchLabels[..], old(mask[..]), mask[..], sp.first, sp.last)
      ensures Compound([sp], [v], old(scratchLabels[..]), scratchLabels[..], mask[..])
      ensures scratchLabels[..] == Overwrite(old(scratchLabels[..]), sp.first, [v])
      ensures mask[..] == Cleared(old(mask[..]), sp)
    {
      var x := rp.Next();
      v := x.value;
      PlaceLabel(v, sp);
    }

    /** `__organize`: partition the span and apply the structure's layouts to
        the resulting spans in turn, cycling through the structure. */
    method Organize(org: Organizer<L>, span: Span, ghost st0: Scratch<L>) returns (r: Outcome)
      requires ScratchReady()
      requires Mirrors(st0, OrganizerPatterns(org))
      modifies scratchLabels, mask, OrganizerPatterns(org)
      decreases org, 4
      ensures r == OrganizeOf(org, span, st0).outcome && Mirrors(OrganizeOf(org, span, st0).after, OrganizerPatterns(org))
      ensures Partition(org.partitioning, span).Err? ==>
        r == Fail(Partition(org.partitioning, span).error) && unchanged(scratchLabels, mask)
      ensures r.Pass? ==> Partition(org.partitioning, span).Ok?
      ensures ChangedWithin(old(scratchLabels[..]), scratchLabels[..], old(mask[..]), mask[..], span.first, span.last)
      ensures r.Pass? ==> StartsKept(Partition(org.partitioning, span).value, old(mask[..]), mask[..])
      ensures Partition(org.partitioning, span).Ok? && org.structure.Layouts? && org.structure.items == [] ==>
        r == Pass && unchanged(scratchLabels, mask)
      ensures r.Pass? && org.structure.Layouts? && AllLabels(org.structure.items) && org.structure.items != [] ==>
        var spans := Partition(org.partitioning, span).value;
        Compound(spans, Cycle(Values(org.structure.items), 0, |spans|), old(scratchLabels[..]), scratchLabels[..], mask[..])
      ensures r.Pass? && org.structure.RememberingLabels? && |org.structure.rp.labels| == 0 ==>
        org.structure.rp.drawn == old(org.structure.rp.drawn) && unchanged(scratchLabels, mask)
      ensures r.Pass? && org.structure.RememberingLabels? && |org.structure.rp.labels| > 0 ==>
        var spans := Partition(org.partitioning, span).value;
        var rp := org.structure.rp;
        && rp.drawn == old(rp.drawn) + |spans|
        && Compound(spans, Cycle(rp.labels, old(rp.drawn), |spans|), old(scratchLabels[..]), scratchLabels[..], mask[..])
    {
      var p := Partition(org.partitioning, span);
      if p.Err? {
        return Fail(p.error);
      }
      match org.structure {
        case Layouts(items) =>
          if items == [] {
            return Pass;
          }
          r := PlaceLayouts(org, p.value, span, st0);
        case RememberingLabels(rp) =>
          r := PlaceRememberingLabels(rp, p.value, span, st0);
      }
    }

    /** The loop of `__organize` over `zip(spans, cycle(structure))` for a list structure. */
    method PlaceLayouts(org: Organizer<L>, spans: seq<Span>, span: Span, ghost st0: Scratch<L>) returns (r: Outcome)
      requires ScratchReady()
      requires org.structure.Layouts? && org.structure.items != []
      requires 0 <= span.first <= span.last < scratchLabels.Length
      requires SpanTiling(spans, span.first, span.last)
      requires Mirrors(st0, OrganizerPatterns(org))
      modifies scratchLabels, mask, OrganizerPatterns(org)
      decreases org, 3
      ensures r == LayoutsOf(org, spans, span.first, span.last, |spans|, st0).outcome
      ensures Mirrors(LayoutsOf(org, spans, span.first, span.last, |spans|, st0).after, OrganizerPatterns(org))
      ensures ChangedWithin(old(scratchLabels[..]), scratchLabels[..], old(mask[..]), mask[..], span.first, span.last)
      ensures r.Pass? ==> StartsKept(spans, old(mask[..]), mask[..])
      ensures r.Pass? && AllLabels(org.structure.items) ==>
        Compound(spans, Cycle(Values(org.structure.items), 0, |spans|), old(scratchLabels[..]), scratchLabels[..], mask[..])
    {
      r := PlaceEachLayout(org, spans, span, st0);
      FrontierNext(spans, |spans| - 1, span.first, span.last);
      if r.Pass? {
        var items := org.structure.items;
        ghost var after := LayoutsOf(org, spans, span.first, span.last, |spans|, st0).after;
        LayoutsPlaced(org, spans, span.first, span.last, |spans|, st0);
        PlacedAll(spans, span.first, span.last, AllLabels(items), if AllLabels(items) then Values(items) else [], 0,
                  st0.labels, after.labels, st0.mask, after.mask);
      }
    }

    /** The loop itself, over the spans while no layout fails. */
    method PlaceEachLayout(org: Organizer<L>, spans: seq<Span>, span: Span, ghost st0: Scratch<L>) returns (r: Outcome)
      requires ScratchReady()
      requires org.structure.Layouts? && org.structure.items != []
      requires 0 <= span.first <= span.last < scratchLabels.Length
      requires SpanTiling(spans, span.first, span.last)
      requires Mirrors(st0, OrganizerPatterns(org))
      modifies scratchLabels, mask, OrganizerPatterns(org)
      decreases org, 2
      ensures r == LayoutsOf(org, spans, span.first, span.last, |spans|, st0).outcome
      ensures Mirrors(LayoutsOf(org, spans, span.first, span.last, |spans|, st0).after, OrganizerPatterns(org))
    {
      var s := 0;
      while s < |spans|
        invariant 0 <= s <= |spans|
        invariant LayoutsOf(org, spans, span.first, span.last, s, st0).outcome == Pass
        invariant Mirrors(LayoutsOf(org, spans, span.first, span.last, s, st0).after, OrganizerPatterns(org))
      {
        r := PlaceTurn(org, spans, span, s, st0);
        if r.Fail? {
          LayoutsStopAt(org, spans, span.first, span.last, s + 1, st0);
          return;
        }
        s := s + 1;
      }
      return Pass;
    }

    /** One turn of the loop: the layout for span `s`. */
    method PlaceTurn(org: Organizer<L>, spans: seq<Span>, span: Span, s: nat, ghost st0: Scratch<L>) returns (r: Outcome)
      requires ScratchReady()
      requires org.structure.Layouts? && org.structure.items != []
      requires 0 <= span.first <= span.last < scratchLabels.Length
      requires SpanTiling(spans, span.first, span.last) && s < |spans|
      requires LayoutsOf(org, spans, span.first, span.last, s, st0).outcome == Pass
      requires Mirrors(LayoutsOf(org, spans, span.first, span.last, s, st0).after, OrganizerPatterns(org))
      modifies scratchLabels, mask, OrganizerPatterns(org)
      decreases org, 1
      ensures r == LayoutsOf(org, spans, span.first, span.last, s + 1, st0).outcome
      ensures Mirrors(LayoutsOf(org, spans, span.first, span.last, s + 1, st0).after, OrganizerPatterns(org))
    {
      var items := org.structure.items;
      var k := s % |items|;
      ghost var all := OrganizerPatterns(org);
      ghost var mine := LayoutPatterns(items[k]);
      SpanInside(spans, s, span.first, span.last);
      ItemPatternsIncluded(items, k);
      assert mine <= all;
      ghost var cur := LayoutsOf(org, spans, span.first, span.last, s, st0).after;
      LayoutsNext(org, spans, span.first, span.last, s, st0);
      ghost var next := LayoutOf(org, k, spans[s], cur);
      assert LayoutsOf(org, spans, span.first, span.last, s + 1, st0) == next;
      assert Mirrors(cur, mine);
      ghost var before := Cursors(all);
      r := PlaceOne(org, k, spans[s], cur);
      assert Mirrors(next.after, mine);
      assert SameOutside(cur.drawn, next.after.drawn, mine);
      forall rp | rp in all
        ensures rp.drawn == Drawn(next.after.drawn, rp)
      {
        if rp !in mine {
          assert rp.drawn == Drawn(before, rp) == Drawn(cur.drawn, rp);
          assert rp in cur.drawn.Keys + next.after.drawn.Keys ==> Drawn(next.after.drawn, rp) == Drawn(cur.drawn, rp);
        }
      }
      assert Mirrors(next.after, all);
    }

    /** One step of the loop: layout `items[k]` applied to span `sp`. */
    method PlaceOne(org: Organizer<L>, k: nat, sp: Span, ghost st0: Scratch<L>) returns (r: Outcome)
      requires ScratchReady()
      requires org.structure.Layouts? && k < |org.structure.items|
      requires 0 <= sp.first <= sp.last < scratchLabels.Length
      requires Mirrors(st0, LayoutPatterns(org.structure.items[k]))
      modifies scratchLabels, mask, LayoutPatterns(org.structure.items[k])
      decreases org, 0
      ensures r == LayoutOf(org, k, sp, st0).outcome
      ensures Mirrors(LayoutOf(org, k, sp, st0).after, LayoutPatterns(org.structure.items[k]))
      ensures ChangedWithin(old(scratchLabels[..]), scratchLabels[..], old(mask[..]), mask[..], sp.first, sp.last)
      ensures org.structure.items[k].Label? ==>
        r == Pass && Compound([sp], [org.structure.items[k].value], old(scratchLabels[..]), scratchLabels[..], mask[..])
    {
      var layout := org.structure.items[k];
      match layout {
        case Nested(o) =>
          r := Organize(o, sp, st0);
        case Pattern(_) =>
          r := ApplyPattern(layout, sp, st0);
        case Remembering(_) =>
          r := ApplyPattern(layout, sp, st0);
        case Label(v) =>
          PlaceLabel(v, sp);
          r := Pass;
      }
    }

    /** The loop of `__organize` when the structure is a RememberingPattern:
        each span becomes one workshift labeled with the pattern's next label;
        StopIteration from an empty pattern ends the loop. */
    method PlaceRememberingLabels(rp: RememberingPattern<L>, spans: seq<Span>, span: Span, ghost st0: Scratch<L>)
      returns (r: Outcome)
      requires ScratchReady()
      requires 0 <= span.first <= span.last < scratchLabels.Length
      requires SpanTiling(spans, span.first, span.last)
      requires Mirrors(st0, {rp})
      modifies scratchLabels, mask, rp
      ensures Mirrors(DrawnLabelsOf(rp, spans, span.first, span.last, |spans|, st0), {rp})
      ensures r == Pass
      ensures ChangedWithin(old(scratchLabels[..]), scratchLabels[..], old(mask[..]), mask[..], span.first, span.last)
      ensures StartsKept(spans, old(mask[..]), mask[..])
      ensures |rp.labels| == 0 ==> rp.drawn == old(rp.drawn) && unchanged(scratchLabels, mask)
      ensures |rp.labels| > 0 ==>
        && rp.drawn == old(rp.drawn) + |spans|
        && Compound(spans, Cycle(rp.labels, old(rp.drawn), |spans|), old(scratchLabels[..]), scratchLabels[..], mask[..])
    {
      if |rp.labels| == 0 {
        var x := rp.Next();
        return Pass;
      }
      ghost var l0, m0, d0 := scratchLabels[..], mask[..], rp.drawn;
      r := PlaceEachLabel(rp, spans, span, st0);
      PlacedAll(spans, span.first, span.last, true, rp.labels, d0, l0, scratchLabels[..], m0, mask[..]);
    }

    /** The loop of `__organize` over a non-empty RememberingPattern. */
    method PlaceEachLabel(rp: RememberingPattern<L>, spans: seq<Span>, span: Span, ghost st0: Scratch<L>)
      returns (r: Outcome)
      requires ScratchReady() && |rp.labels| > 0
      requires 0 <= span.first <= span.last < scratchLabels.Length
      requires SpanTiling(spans, span.first, span.last)
      requires Mirrors(st0, {rp})
      modifies scratchLabels, mask, rp
      ensures Mirrors(DrawnLabelsOf(rp, spans, span.first, span.last, |spans|, st0), {rp})
      ensures r == Pass && rp.drawn == old(rp.drawn) + |spans|
      ensures Placed(spans, |spans|, span.first, span.last, true, rp.labels, old(rp.drawn),
                     old(scratchLabels[..]), scratchLabels[..], old(mask[..]), mask[..])
    {
      ghost var l0, m0, d0 := scratchLabels[..], mask[..], rp.drawn;
      var s := 0;
      while s < |spans|
        invariant 0 <= s <= |spans|
        invariant rp.drawn == d0 + s
        invariant Placed(spans, s, span.first, span.last, true, rp.labels, d0, l0, scratchLabels[..], m0, mask[..])
        invariant Mirrors(DrawnLabelsOf(rp, spans, span.first, span.last, s, st0), {rp})
      {
        var sp := spans[s];
        ghost var la, ma := scratchLabels[..], mask[..];
        SpanInside(spans, s, span.first, span.last);
        var v := PlaceNextLabel(rp, sp);
        assert v == rp.labels[(d0 + s) % |rp.labels|];
        PlacedStep(spans, s, span.first, span.last, true, rp.labels, d0, l0, la, scratchLabels[..], m0, ma, mask[..]);
        s := s + 1;
      }
      return Pass;
    }

    /** The whole frame as one span. */
    function Whole(): Span
    {
      Span(0, |frame.starts| - 1, 0, 0)
    }

    /** What organizing the whole frame with `org` and banding it achieves:
        a partition error fails; on success the band is taken from the
        compound mask, and a structure of scalar labels only labels the
        t-th span, which is the t-th workshift, with its labels in turn. */
    ghost predicate Arranged(org: Organizer<L>, st0: Scratch<L>, r: Outcome)
      reads this, scratchLabels, mask
    {
      && ScratchReady()
      && r == OrganizeOf(org, Whole(), st0).outcome
      && (Partition(org.partitioning, Whole()).Err? ==> r.Fail?)
      && (r.Pass? ==>
            && Partition(org.partitioning, Whole()).Ok?
            && scratchLabels[..] == OrganizeOf(org, Whole(), st0).after.labels
            && mask[..] == OrganizeOf(org, Whole(), st0).after.mask
            && Valid() && mask[0] && band == BandOf(mask[..])
            && (forall j :: 0 <= j < |band.starts| ==> wsLabels[j] == scratchLabels[band.starts[j]])
            && (org.structure.Layouts? && AllLabels(org.structure.items) && org.structure.items != [] ==>
                  var spans := Partition(org.partitioning, Whole()).value;
                  var items := org.structure.items;
                  && band.starts == Firsts(spans)
                  && forall k :: 0 <= k < |spans| ==> wsLabels[k] == items[k % |items|].value))
    }

    /** The organizing part of `_Timeline.__init__` on a fresh timeline. */
    method Arrange(org: Organizer<L>) returns (r: Outcome)
      requires ScratchReady()
      requires forall i :: 0 <= i < mask.Length ==> mask[i]
      modifies this, scratchLabels, mask, OrganizerPatterns(org)
      ensures Arranged(org, Scratch(old(scratchLabels[..]), old(mask[..]), old(Cursors(OrganizerPatterns(org)))), r)
    {
      var whole := Whole();
      ghost var l0, m0 := scratchLabels[..], mask[..];
      ghost var st0 := Scratch(l0, m0, Cursors(OrganizerPatterns(org)));
      r := Organize(org, whole, st0);
      if r.Fail? {
        return;
      }
      assert mask[0] == m0[0];
      ghost var l1, m1 := scratchLabels[..], mask[..];
      MakeBand();
      if org.structure.Layouts? && AllLabels(org.structure.items) && org.structure.items != [] {
        var spans := Partition(org.partitioning, whole).value;
        LabelsBand(org.structure.items, spans, l0, l1, m0, m1, band, wsLabels);
      }
    }

    // ----- the workshift band -----

    /** The end of `_Timeline.__init__` with an organizer: the workshifts
        start where the compound mask is still set, and each is labeled with
        the label of its first base unit. */
    method MakeBand()
      requires ScratchReady() && mask[0]
      modifies this
      ensures Valid()
      ensures band == BandOf(mask[..])
      ensures |wsLabels| == |band.starts|
      ensures forall j :: 0 <= j < |band.starts| ==> wsLabels[j] == scratchLabels[band.starts[j]]
    {
      var b := BandOf(mask[..]);
      var ls := scratchLabels[..];
      band := b;
      wsLabels := seq(|b.starts|, j requires 0 <= j < |b.starts| => ls[b.starts[j]]);
    }

    /** `get_ws_ref_time`. */
    function RefTime(j: nat): int
      reads this
      requires Valid() && j < |band.starts|
    {
      WsRefTime(frame, band, refIsEnd, j)
    }

    /** `get_ws_pos_by_ref_after`: the earliest workshift whose reference time
        is at or after `t`, starting the search at the workshift containing `t`. */
    method WsPosByRefAfter(t: int) returns (r: Result<nat>)
      requires Valid()
      ensures r.Err? ==> r.error == OutOfBounds
      ensures r.Ok? <==> WsPosition(frame, band, t).Ok? && exists j :: 0 <= j < |band.starts| && RefTime(j) >= t
      ensures r.Ok? ==> && r.value < |band.starts| && RefTime(r.value) >= t
                        && forall j :: 0 <= j < r.value ==> RefTime(j) < t
    {
      var p := WsPosition(frame, band, t);
      if p.Err? {
        return Err(OutOfBounds);
      }
      forall j | 0 <= j < p.value
        ensures RefTime(j) < t
      {
        EarlierWorkshiftsEndBefore(frame, band, t, j);
      }
      var candidate := p.value;
      while candidate < |band.starts| && RefTime(candidate) < t
        invariant p.value <= candidate <= |band.starts|
        invariant forall j :: 0 <= j < candidate ==> RefTime(j) < t
        decreases |band.starts| - candidate
      {
        candidate := candidate + 1;
      }
      if candidate == |band.starts| {
        return Err(OutOfBounds);
      }
      return Ok(candidate);
    }

    /** `get_ws_pos_by_ref_before`: the latest workshift whose reference time
        is at or before `t`, starting the search at the workshift containing `t`. */
    method WsPosByRefBefore(t: int) returns (r: Result<nat>)
      requires Valid()
      ensures r.Err? ==> r.error == OutOfBounds
      ensures r.Ok? <==> WsPosition(frame, band, t).Ok? && exists j :: 0 <= j < |band.starts| && RefTime(j) <= t
      ensures r.Ok? ==> && r.value < |band.starts| && RefTime(r.value) <= t
                        && forall j :: r.value < j < |band.starts| ==> RefTime(j) > t
    {
      var p := WsPosition(frame, band, t);
      if p.Err? {
        return Err(OutOfBounds);
      }
      LaterRefTimesAfter(frame, band, refIsEnd, t);
      var found := ScanBack(frame, band, refIsEnd, t, p.value);
      if found.None? {
        return Err(OutOfBounds);
      }
      assert RefTime(found.value) <= t;
      return Ok(found.value);
    }

    /** `reset`: every workshift gets label `value`. */
    method Reset(value: L)
      requires Valid()
      modifies this
      ensures Valid() && band == old(band)
      ensures |wsLabels| == |old(wsLabels)| && forall j :: 0 <= j < |wsLabels| ==> wsLabels[j] == value
    {
      wsLabels := seq(|wsLabels|, _ => value);
    }

    /** `amend`: relabel the workshifts containing the given points in time,
        all at once and only when every amendment could be located. */
    method Amend(items: seq<(int, L)>, notInRange: string) returns (r: Outcome)
      requires Valid()
      modifies this
      ensures Valid() && band == old(band)
      ensures LocateAmendments(Located(frame, band, items), notInRange == "raise").Err? ==>
        r == Fail(LocateAmendments(Located(frame, band, items), notInRange == "raise").error)
        && wsLabels == old(wsLabels)
      ensures LocateAmendments(Located(frame, band, items), notInRange == "raise").Ok? ==>
        var located := LocateAmendments(Located(frame, band, items), notInRange == "raise").value;
        && r == Pass && |wsLabels| == |old(wsLabels)|
        && forall j :: 0 <= j < |wsLabels| ==> wsLabels[j] == if j in located then located[j] else old(wsLabels)[j]
    {
      var located := LocateAll(frame, band, items, notInRange == "raise");
      if located.Err? {
        return Fail(located.error);
      }
      var m := located.value;
      var oldLabels := wsLabels;
      wsLabels := seq(|oldLabels|, j requires 0 <= j < |oldLabels| => if j in m then m[j] else oldLabels[j]);
      return Pass;
    }
  }

  /** The first base unit of each span. */
  function Firsts(spans: seq<Span>): (r: seq<int>)
    ensures |r| == |spans| && forall t :: 0 <= t < |spans| ==> r[t] == spans[t].first
  {
    seq(|spans|, t requires 0 <= t < |spans| => spans[t].first)
  }

  /** Organizing a whole frame of starting workshifts into compound spans
      leaves a band whose workshifts are exactly those spans. */
  lemma CompoundSpansAreWorkshifts<L>(spans: seq<Span>, placed: seq<L>, l0: seq<L>, l1: seq<L>,
                                      m0: seq<bool>, m1: seq<bool>)
    requires |m0| >= 1 && SpanTiling(spans, 0, |m0| - 1)
    requires forall i :: 0 <= i < |m0| ==> m0[i]
    requires StartsKept(spans, m0, m1) && |l0| == |m0| && Compound(spans, placed, l0, l1, m1)
    ensures m1[0] && BandOf(m1).starts == Firsts(spans)
  {
    SpanTilingOrdered(spans, 0, |m0| - 1);
    var firsts := Firsts(spans);
    forall u | 0 <= u < |m1|
      ensures m1[u] <==> u in firsts
    {
      SpanTilingCovers(spans, 0, |m0| - 1, u);
      var t :| 0 <= t < |spans| && spans[t].first <= u <= spans[t].last;
      if u == spans[t].first {
        assert firsts[t] == u;
      } else {
        assert !m1[u];
        forall k | 0 <= k < |spans|
          ensures firsts[k] != u
        {
          if k < t {
            assert spans[k].last < spans[t].first;
          } else if k > t {
            assert spans[t].last < spans[k].first;
          }
        }
      }
    }
    var starts := BandOf(m1).starts;
    assert Members(starts) == Members(firsts);
    IncreasingUnique(starts, firsts);
  }

  /** The labels a structure of scalar labels gives its spans in turn. */
  lemma FlatLabels<L>(items: seq<Layout<L>>, n: nat)
    requires AllLabels(items) && items != []
    ensures |Cycle(Values(items), 0, n)| == n
    ensures forall k :: 0 <= k < n ==> Cycle(Values(items), 0, n)[k] == items[k % |items|].value
  {
  }

  /** A structure of scalar labels only, organized over the whole frame: the
      t-th workshift is the t-th span and carries the t-th label in turn. */
  lemma {:induction false} LabelsBand<L>(items: seq<Layout<L>>, spans: seq<Span>, l0: seq<L>, l1: seq<L>,
                                         m0: seq<bool>, m1: seq<bool>, b: Band, wsLabels: seq<L>)
    requires AllLabels(items) && items != []
    requires |m0| >= 1 && SpanTiling(spans, 0, |m0| - 1)
    requires forall i :: 0 <= i < |m0| ==> m0[i]
    requires StartsKept(spans, m0, m1) && |l0| == |m0|
    requires Compound(spans, Cycle(Values(items), 0, |spans|), l0, l1, m1)
    requires m1[0] && b == BandOf(m1)
    requires |wsLabels| == |b.starts| && forall j :: 0 <= j < |b.starts| ==> wsLabels[j] == l1[b.starts[j]]
    ensures b.starts == Firsts(spans)
    ensures forall k :: 0 <= k < |spans| ==> wsLabels[k] == items[k % |items|].value
  {
    FlatLabels(items, |spans|);
    CompoundBand(spans, Cycle(Values(items), 0, |spans|), l0, l1, m0, m1, b, wsLabels);
  }

  /** After organizing a whole frame into compound spans, the t-th span is
      the t-th workshift and carries the label placed on it. */
  lemma CompoundBand<L>(spans: seq<Span>, placed: seq<L>, l0: seq<L>, l1: seq<L>,
                        m0: seq<bool>, m1: seq<bool>, b: Band, wsLabels: seq<L>)
    requires |m0| >= 1 && SpanTiling(spans, 0, |m0| - 1)
    requires forall i :: 0 <= i < |m0| ==> m0[i]
    requires StartsKept(spans, m0, m1) && |l0| == |m0|
    requires Compound(spans, placed, l0, l1, m1)
    requires m1[0] && b == BandOf(m1)
    requires |wsLabels| == |b.starts| && forall j :: 0 <= j < |b.starts| ==> wsLabels[j] == l1[b.starts[j]]
    ensures b.starts == Firsts(spans)
    ensures forall k :: 0 <= k < |spans| ==> wsLabels[k] == placed[k]
  {
    CompoundSpansAreWorkshifts(spans, placed, l0, l1, m0, m1);
    SpanTilingOrdered(spans, 0, |m0| - 1);
    forall k | 0 <= k < |spans|
      ensures wsLabels[k] == placed[k]
    {
      assert b.starts[k] == spans[k].first;
    }
  }

  /** `_Timeline.__init__`: a timeline labeled `default` throughout, then,
      given an organizer, organized over the whole frame and banded. */
  method Build<L>(frame: Frame, rules: PeriodRules, baseUnitFreq: string, refIsEnd: bool, default: L,
                  org: Option<Organizer<L>>) returns (t: Timeline<L>, r: Outcome)
    requires ValidFrame(frame)
    modifies if org.Some? then OrganizerPatterns(org.value) else {}
    ensures fresh(t) && t.frame == frame && t.refIsEnd == refIsEnd
    ensures r.Pass? ==> t.Valid()
    ensures org.None? ==> && r == Pass && t.band == Band(|frame.starts|, Range(|frame.starts|))
                          && forall j :: 0 <= j < |t.wsLabels| ==> t.wsLabels[j] == default
    ensures org.Some? ==>
      t.Arranged(org.value, Scratch(Filled(|frame.starts|, default), Filled(|frame.starts|, true),
                                    old(Cursors(OrganizerPatterns(org.value)))), r)
  {
    ghost var c0 := if org.Some? then Cursors(OrganizerPatterns(org.value)) else map[];
    t := new Timeline(frame, rules, baseUnitFreq, refIsEnd, default);
    if org.None? {
      return t, Pass;
    }
    assert t.scratchLabels[..] == Filled(|frame.starts|, default);
    assert t.mask[..] == Filled(|frame.starts|, true);
    assert Cursors(OrganizerPatterns(org.value)) == c0;
    r := t.Arrange(org.value);
  }

  /** `n` copies of `v`. */
  function Filled<T>(n: nat, v: T): (r: seq<T>)
    ensures |r| == n && forall i :: 0 <= i < n ==> r[i] == v
  {
    seq(n, _ => v)
  }

  /** The workshift of each amendment's point in time (None outside the
      timeline), with the amendment's label. */
  function Located<L>(f: Frame, b: Band, items: seq<(int, L)>): (r: seq<(Option<nat>, L)>)
    requires OnFrame(f, b)
    ensures |r| == |items|
    ensures forall k :: 0 <= k < |items| ==> r[k] == (Position(f, b, items[k].0), items[k].1)
  {
    seq(|items|, k requires 0 <= k < |items| => (Position(f, b, items[k].0), items[k].1))
  }

  /** The workshift containing `t`, or None when `t` is outside the frame. */
  function Position(f: Frame, b: Band, t: int): (r: Option<nat>)
    requires OnFrame(f, b)
    ensures r.None? <==> t < f.starts[0] || t > f.end
    ensures r.Some? ==> r.value < |b.starts| && r.value == WsPosition(f, b, t).value
  {
    match WsPosition(f, b, t) case Ok(j) => Some(j) case Err(_) => None
  }

  /** The loop of `amend` that locates the amendments. */
  method LocateAll<L>(f: Frame, b: Band, items: seq<(int, L)>, raise: bool) returns (r: Result<map<nat, L>>)
    requires OnFrame(f, b)
    ensures r == LocateAmendments(Located(f, b, items), raise)
  {
    ghost var all := Located(f, b, items);
    var located: map<nat, L> := map[];
    var k := 0;
    while k < |items|
      invariant 0 <= k <= |items|
      invariant LocateAmendments(all[..k], raise) == Ok(located)
    {
      var q := Position(f, b, items[k].0);
      var v := items[k].1;
      var next := AddAmendment(located, q, v, raise);
      assert LocateAmendments(all[..k + 1], raise) == next by {
        assert all[k] == (q, v);
        LocateStep(all, k, raise);
      }
      if next.Err? {
        assert LocateAmendments(all, raise) == next by {
          PrefixError(all, k + 1, raise);
        }
        return next;
      }
      located := next.value;
      k := k + 1;
    }
    assert all[..k] == all;
    return Ok(located);
  }

  /** The located amendments `amend` applies (positions mapped to labels),
      or the error it raises, folding the amendments in order: KeyError for
      an amendment in a workshift already amended, OutOfBounds for one
      outside the timeline when `raise` (not_in_range == 'raise'); otherwise
      those are skipped. */
  function LocateAmendments<L>(items: seq<(Option<nat>, L)>, raise: bool): (r: Result<map<nat, L>>)
    ensures r.Err? ==> r.error == KeyError || (raise && r.error == OutOfBounds)
    decreases |items|
  {
    if items == [] then Ok(map[])
    else
      match LocateAmendments(items[..|items| - 1], raise)
      case Err(e) => Err(e)
      case Ok(located) => AddAmendment(located, items[|items| - 1].0, items[|items| - 1].1, raise)
  }

  /** What the fold means: under 'raise' success means every amendment was
      located; every located amendment is in the map with its label; every
      key comes from an amendment; and without 'raise' the fold fails
      exactly when two amendments share a workshift. */
  lemma {:induction false} LocateAmendmentsMeaning<L>(items: seq<(Option<nat>, L)>, raise: bool)
    ensures LocateAmendments(items, raise).Ok? && raise ==> forall k :: 0 <= k < |items| ==> items[k].0.Some?
    ensures LocateAmendments(items, raise).Ok? ==>
              forall k :: 0 <= k < |items| && items[k].0.Some? ==>
                items[k].0.value in LocateAmendments(items, raise).value
                && LocateAmendments(items, raise).value[items[k].0.value] == items[k].1
    ensures LocateAmendments(items, raise).Ok? ==>
              forall j :: j in LocateAmendments(items, raise).value ==>
                exists k :: 0 <= k < |items| && items[k].0 == Some(j)
    ensures !raise ==> (LocateAmendments(items, raise).Err? <==> SharedWorkshift(items))
    decreases |items|
  {
    if items != [] {
      var init := items[..|items| - 1];
      var p := items[|items| - 1].0;
      LocateAmendmentsMeaning(init, raise);
      SharedWorkshiftStep(items);
      assert forall k :: 0 <= k < |init| ==> init[k] == items[k];
      match LocateAmendments(init, raise)
      case Err(e) =>
      case Ok(located) =>
        assert p.Some? && p.value in located ==> LastShares(items) by {
          if p.Some? && p.value in located {
            var k :| 0 <= k < |init| && init[k].0 == p;
            assert items[k].0 == items[|items| - 1].0;
          }
        }
    }
  }

  /** One amendment of the loop in `amend`, given the ones located so far. */
  function AddAmendment<L>(located: map<nat, L>, p: Option<nat>, v: L, raise: bool): (r: Result<map<nat, L>>)
    ensures p.None? ==> r == (if raise then Err(OutOfBounds) else Ok(located))
    ensures p.Some? && p.value in located ==> r == Err(KeyError)
    ensures p.Some? && p.value !in located ==> r == Ok(located[p.value := v])
  {
    match p
    case None => if raise then Err(OutOfBounds) else Ok(located)
    case Some(j) => if j in located then Err(KeyError) else Ok(located[j := v])
  }

  lemma LocateStep<L>(items: seq<(Option<nat>, L)>, k: nat, raise: bool)
    requires k < |items| && LocateAmendments(items[..k], raise).Ok?
    ensures LocateAmendments(items[..k + 1], raise)
            == AddAmendment(LocateAmendments(items[..k], raise).value, items[k].0, items[k].1, raise)
  {
    assert items[..k + 1][..k] == items[..k];
  }

  /** Two amendments, both inside the timeline, fall into the same workshift. */
  ghost predicate SharedWorkshift<L>(items: seq<(Option<nat>, L)>)
  {
    exists k1, k2 :: 0 <= k1 < k2 < |items| && items[k1].0.Some? && items[k1].0 == items[k2].0
  }

  /** The last amendment falls into the workshift of an earlier one. */
  ghost predicate LastShares<L>(items: seq<(Option<nat>, L)>)
    requires |items| > 0
  {
    exists k :: 0 <= k < |items| - 1 && items[k].0.Some? && items[k].0 == items[|items| - 1].0
  }

  /** A clash is among the earlier amendments or involves the last one. */
  lemma SharedWorkshiftStep<L>(items: seq<(Option<nat>, L)>)
    requires |items| > 0
    ensures SharedWorkshift(items) <==> SharedWorkshift(items[..|items| - 1]) || LastShares(items)
  {
    var init := items[..|items| - 1];
    assert forall k :: 0 <= k < |init| ==> init[k] == items[k];
    if SharedWorkshift(items) {
      var k1, k2 :| 0 <= k1 < k2 < |items| && items[k1].0.Some? && items[k1].0 == items[k2].0;
      if k2 < |items| - 1 {
        assert init[k1].0 == init[k2].0;
      }
    }
  }

  /** An error on a prefix of the amendments is the error of the whole. */
  lemma PrefixError<L>(items: seq<(Option<nat>, L)>, k: nat, raise: bool)
    requires k <= |items|
    requires LocateAmendments(items[..k], raise).Err?
    ensures LocateAmendments(items, raise) == LocateAmendments(items[..k], raise)
    decreases |items| - k
  {
    if k < |items| {
      assert items[..k + 1][..k] == items[..k];
      PrefixError(items, k + 1, raise);
    } else {
      assert items[..k] == items;
    }
  }
}
