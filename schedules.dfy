// Duty schedules (timeboard/core.py: `_Schedule`).
//
// A schedule applies a selector to the label of every workshift and keeps
// the ascending positions of the on-duty and of the off-duty workshifts.

module Schedules {
  import opened Indexing

  datatype Schedule<!L> = Schedule(name: string, labels: seq<L>, selector: L -> bool,
                                  onDuty: seq<nat>, offDuty: seq<nat>)

  /** The selector applied to every label. */
  function Selected<L>(labels: seq<L>, selector: L -> bool): (r: seq<bool>)
    ensures |r| == |labels| && forall i :: 0 <= i < |labels| ==> r[i] == selector(labels[i])
  {
    seq(|labels|, i requires 0 <= i < |labels| => selector(labels[i]))
  }

  /** `_Schedule.__init__`: on-duty positions are `nonzero(selected)`, off-duty
      positions `nonzero(~selected)`. */
  function MakeSchedule<L>(labels: seq<L>, name: string, selector: L -> bool): (s: Schedule<L>)
    ensures s.name == name && s.labels == labels && s.selector == selector
    ensures Increasing(s.onDuty) && Increasing(s.offDuty)
    ensures forall k :: 0 <= k < |s.onDuty| ==> s.onDuty[k] < |labels| && selector(labels[s.onDuty[k]])
    ensures forall k :: 0 <= k < |s.offDuty| ==> s.offDuty[k] < |labels| && !selector(labels[s.offDuty[k]])
    ensures forall i :: 0 <= i < |labels| ==> (i in s.onDuty <==> selector(labels[i]))
    ensures forall i :: 0 <= i < |labels| ==> (i in s.offDuty <==> !selector(labels[i]))
  {
    var flags := Selected(labels, selector);
    Schedule(name, labels, selector, Where(flags, true), Where(flags, false))
  }

  /** A schedule as `_Schedule.__init__` builds it. */
  predicate Built<L>(s: Schedule<L>)
  {
    var flags := Selected(s.labels, s.selector);
    s.onDuty == Where(flags, true) && s.offDuty == Where(flags, false)
  }

  /** `index`: every position of the timeline. */
  function Index<L>(s: Schedule<L>): (r: seq<nat>)
    ensures Increasing(r) && |r| == |s.labels|
    ensures forall k :: 0 <= k < |r| ==> r[k] == k
  {
    RangeIncreasing(|s.labels|);
    Range(|s.labels|)
  }

  /** `is_on_duty(n)`. */
  function IsOnDuty<L>(s: Schedule<L>, n: nat): bool
    requires n < |s.labels|
  {
    s.selector(s.labels[n])
  }

  /** The on-duty and off-duty positions partition the timeline: every
      position is in exactly one of the two lists, and their lengths add up
      to the length of the timeline. */
  lemma SchedulePartition<L>(s: Schedule<L>)
    requires Built(s)
    ensures forall i :: 0 <= i < |s.labels| ==> (i in s.onDuty <==> i !in s.offDuty)
    ensures forall i :: 0 <= i < |s.labels| ==> (i in s.onDuty <==> IsOnDuty(s, i))
    ensures forall x :: x in s.onDuty || x in s.offDuty ==> 0 <= x < |s.labels|
    ensures |s.onDuty| + |s.offDuty| == |s.labels|
  {
    WhereSplit(Selected(s.labels, s.selector));
  }

  /** The positions of `true` and of `false` together number the flags. */
  lemma {:induction false} WhereSplit(flags: seq<bool>)
    ensures |Where(flags, true)| + |Where(flags, false)| == |flags|
  {
    if flags != [] {
      WhereSplit(flags[..|flags| - 1]);
    }
  }
}
