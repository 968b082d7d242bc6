/** The value-by-value mapping of day5/day5.py: every seed number goes through each
    stage on its own, taking the first rule of the stage whose source covers it. */
module PointMapping {

  /** A table line `dest_start source_start range`. */
  datatype MappedRange = MappedRange(destStart: int, sourceStart: int, range: int)

  predicate Covers(m: MappedRange, v: int)
  {
    m.sourceStart <= v < m.sourceStart + m.range
  }

  /** The inner loop of `apply_mapping`: the first rule that covers `v` moves it. */
  function MapValue(mappings: seq<MappedRange>, v: int): int
  {
    if |mappings| == 0 then v
    else if Covers(mappings[0], v) then mappings[0].destStart + (v - mappings[0].sourceStart)
    else MapValue(mappings[1..], v)
  }

  /** A value lands at `dest_start + (v - source_start)` of the first rule that covers
      it; every later rule is ignored. */
  lemma {:induction false} MapValueFirstMatch(mappings: seq<MappedRange>, v: int, k: nat)
    requires k < |mappings| && Covers(mappings[k], v)
    requires forall j :: 0 <= j < k ==> !Covers(mappings[j], v)
    ensures MapValue(mappings, v) == mappings[k].destStart + (v - mappings[k].sourceStart)
  {
    if k > 0 {
      assert !Covers(mappings[0], v);
      MapValueFirstMatch(mappings[1..], v, k - 1);
    }
  }

  /** A value no rule covers passes through unchanged. */
  lemma {:induction false} MapValueNoMatch(mappings: seq<MappedRange>, v: int)
    requires forall j :: 0 <= j < |mappings| ==> !Covers(mappings[j], v)
    ensures MapValue(mappings, v) == v
  {
    if |mappings| > 0 {
      assert !Covers(mappings[0], v);
      MapValueNoMatch(mappings[1..], v);
    }
  }

  /** `apply_mapping`: the outer loop appends one output per input value. */
  function ApplyMapping(values: seq<int>, mappings: seq<MappedRange>): (out: seq<int>)
    ensures |out| == |values|
  {
    if |values| == 0 then []
    else ApplyMapping(values[..|values| - 1], mappings) + [MapValue(mappings, values[|values| - 1])]
  }

  /** Output `i` is input `i` mapped on its own: order is kept and no value sees another. */
  lemma {:induction false} ApplyMappingPointwise(values: seq<int>, mappings: seq<MappedRange>)
    ensures forall i :: 0 <= i < |values| ==>
      ApplyMapping(values, mappings)[i] == MapValue(mappings, values[i])
  {
    if |values| > 0 {
      ApplyMappingPointwise(values[..|values| - 1], mappings);
    }
  }

  /** The mapping works value by value, so it distributes over concatenation. */
  lemma {:induction false} ApplyMappingAppend(xs: seq<int>, ys: seq<int>, mappings: seq<MappedRange>)
    ensures ApplyMapping(xs + ys, mappings) == ApplyMapping(xs, mappings) + ApplyMapping(ys, mappings)
    decreases |ys|
  {
    if |ys| == 0 {
      assert xs + ys == xs;
    } else {
      var ys' := ys[..|ys| - 1];
      assert (xs + ys)[..|xs + ys| - 1] == xs + ys';
      ApplyMappingAppend(xs, ys', mappings);
    }
  }

  /** A stage without rules changes nothing. */
  lemma {:induction false} EmptyStageIsIdentity(values: seq<int>)
    ensures ApplyMapping(values, []) == values
  {
    if |values| > 0 {
      EmptyStageIsIdentity(values[..|values| - 1]);
    }
  }

  /** Taking one element out of a list takes it out of the list's multiset. */
  lemma MultisetRemoveAt<T>(ys: seq<T>, i: nat)
    requires i < |ys|
    ensures multiset(ys[..i] + ys[i + 1..]) == multiset(ys) - multiset{ys[i]}
  {
    assert ys == ys[..i] + [ys[i]] + ys[i + 1..];
  }

  /** Taking one value out of the input takes its image out of the output. */
  lemma ApplyMappingRemoveAt(ys: seq<int>, i: nat, mappings: seq<MappedRange>)
    requires i < |ys|
    ensures multiset(ApplyMapping(ys, mappings)) ==
      multiset(ApplyMapping(ys[..i] + ys[i + 1..], mappings)) + multiset{MapValue(mappings, ys[i])}
  {
    assert ys == ys[..i] + [ys[i]] + ys[i + 1..];
    ApplyMappingAppend(ys[..i], [ys[i]], mappings);
    ApplyMappingAppend(ys[..i] + [ys[i]], ys[i + 1..], mappings);
    ApplyMappingAppend(ys[..i], ys[i + 1..], mappings);
  }

  /** Reordering the input only reorders the output. */
  lemma {:induction false} ApplyMappingPermutation(xs: seq<int>, ys: seq<int>, mappings: seq<MappedRange>)
    requires multiset(xs) == multiset(ys)
    ensures multiset(ApplyMapping(xs, mappings)) == multiset(ApplyMapping(ys, mappings))
    decreases |xs|
  {
    if |xs| == 0 {
      assert |ys| == 0;
    } else {
      var n := |xs| - 1;
      var x := xs[n];
      assert x in multiset(ys);
      var i :| 0 <= i < |ys| && ys[i] == x;
      var xs', ys' := xs[..n] + xs[n + 1..], ys[..i] + ys[i + 1..];
      MultisetRemoveAt(xs, n);
      MultisetRemoveAt(ys, i);
      ApplyMappingPermutation(xs', ys', mappings);
      ApplyMappingRemoveAt(xs, n, mappings);
      ApplyMappingRemoveAt(ys, i, mappings);
    }
  }

  /** The loop of `solution`: each stage maps the output of the previous one. */
  function RunStages(values: seq<int>, stages: seq<seq<MappedRange>>): (out: seq<int>)
    ensures |out| == |values|
    decreases |stages|
  {
    if |stages| == 0 then values else RunStages(ApplyMapping(values, stages[0]), stages[1..])
  }

  lemma {:induction false} RunStagesPermutation(xs: seq<int>, ys: seq<int>, stages: seq<seq<MappedRange>>)
    requires multiset(xs) == multiset(ys)
    ensures multiset(RunStages(xs, stages)) == multiset(RunStages(ys, stages))
    decreases |stages|
  {
    if |stages| > 0 {
      ApplyMappingPermutation(xs, ys, stages[0]);
      RunStagesPermutation(ApplyMapping(xs, stages[0]), ApplyMapping(ys, stages[0]), stages[1..]);
    }
  }

  /** Python's `min` of a non-empty list. */
  function MinValue(xs: seq<int>): (m: int)
    requires |xs| > 0
    ensures m in xs
    ensures forall i :: 0 <= i < |xs| ==> m <= xs[i]
  {
    if |xs| == 1 then xs[0]
    else
      var m := MinValue(xs[..|xs| - 1]);
      assert xs[..|xs| - 1][0] == xs[0];
      if xs[|xs| - 1] < m then xs[|xs| - 1] else m
  }

  /** The minimum depends only on which values occur, not on their order. */
  lemma MinValuePermutation(xs: seq<int>, ys: seq<int>)
    requires |xs| > 0 && multiset(xs) == multiset(ys)
    ensures |ys| > 0 && MinValue(xs) == MinValue(ys)
  {
    assert |ys| == |multiset(ys)| == |multiset(xs)| == |xs|;
    var a, b := MinValue(xs), MinValue(ys);
    assert a in multiset(ys);
    assert b in multiset(xs);
  }

  /** The answer of part one: the lowest location over all seeds. */
  function Solution(seeds: seq<int>, stages: seq<seq<MappedRange>>): (r: int)
    requires |seeds| > 0
    ensures exists i :: 0 <= i < |seeds| && r == RunStages(seeds, stages)[i]
    ensures forall i :: 0 <= i < |seeds| ==> r <= RunStages(seeds, stages)[i]
  {
    MinValue(RunStages(seeds, stages))
  }
}
