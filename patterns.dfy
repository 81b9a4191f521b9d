// Cyclic label patterns (timeboard/core.py: `_skiperator`, `RememberingPattern`).

module Patterns {
  import opened Errors

  /** `count` labels drawn from `cycle(values)` after `from` labels were
      already drawn; an empty `values` yields nothing. */
  function Cycle<L>(values: seq<L>, from: nat, count: nat): (r: seq<L>)
    ensures |values| == 0 ==> r == []
    ensures |values| > 0 ==> |r| == count
    ensures |values| > 0 ==> forall k :: 0 <= k < count ==> r[k] == values[(from + k) % |values|]
    decreases count
  {
    if |values| == 0 || count == 0 then []
    else [values[from % |values|]] + Cycle(values, from + 1, count - 1)
  }

  /** Drawing in two rounds is drawing once. */
  lemma {:induction false} CycleConcat<L>(values: seq<L>, from: nat, a: nat, b: nat)
    ensures Cycle(values, from, a) + Cycle(values, from + a, b) == Cycle(values, from, a + b)
  {
    if |values| > 0 {
      var left := Cycle(values, from, a) + Cycle(values, from + a, b);
      var whole := Cycle(values, from, a + b);
      assert |left| == |whole|;
      forall k | 0 <= k < a + b
        ensures left[k] == whole[k]
      {
        if k >= a {
          assert left[k] == Cycle(values, from + a, b)[k - a];
        }
      }
    }
  }

  /** `_skiperator(values, skip)`: `dropwhile` rejects the first `skip` labels
      of `cycle(values)`; the first `count` labels it yields. */
  function Skiperator<L>(values: seq<L>, skip: nat, count: nat): (r: seq<L>)
  {
    if |values| == 0 then [] else Cycle(values, 0, skip + count)[skip..]
  }

  /** After the skip the labels keep cycling from where the skip left off. */
  lemma SkiperatorAt<L>(values: seq<L>, skip: nat, count: nat)
    ensures Skiperator(values, skip, count) == Cycle(values, skip, count)
    ensures |values| > 0 ==> forall k :: 0 <= k < count ==>
              Skiperator(values, skip, count)[k] == values[(skip + k) % |values|]
  {
    CycleConcat(values, 0, skip, count);
  }

  /** `RememberingPattern`: an iterator over `cycle(labels)` whose position
      persists across every use. `drawn` counts the labels yielded so far. */
  class RememberingPattern<L> {
    const labels: seq<L>
    var drawn: nat

    constructor(labels: seq<L>)
      ensures this.labels == labels && drawn == 0
    {
      this.labels := labels;
      drawn := 0;
    }

    /** `__next__`: the next label of the cycle; None (StopIteration) when there are no labels. */
    method Next() returns (r: Option<L>)
      modifies this
      ensures |labels| == 0 ==> r == None && drawn == old(drawn)
      ensures |labels| > 0 ==> r == Some(labels[old(drawn) % |labels|]) && drawn == old(drawn) + 1
    {
      if |labels| == 0 {
        return None;
      }
      r := Some(labels[drawn % |labels|]);
      drawn := drawn + 1;
    }

    /** Draw `count` labels one by one, stopping at StopIteration. */
    method Take(count: nat) returns (r: seq<L>)
      modifies this
      ensures r == Cycle(labels, old(drawn), count)
      ensures drawn == old(drawn) + |r|
    {
      r := [];
      var i := 0;
      while i < count
        invariant 0 <= i <= count
        invariant drawn == old(drawn) + |r|
        invariant r == Cycle(labels, old(drawn), i)
      {
        var x := Next();
        if x.None? {
          return;
        }
        CycleConcat(labels, old(drawn), i, 1);
        r := r + [x.value];
        i := i + 1;
      }
    }
  }
}
