/** The interval pipeline of day5/day5_part2.py: seed ranges are pushed through a
    chain of mapping stages without ever enumerating their values. A stage is an
    ordered list of rules, each a source range plus an offset; within one stage each
    rule, in order, claims the still-unclaimed parts of the ranges that fall inside
    its source. */
module RangeMapping {

  /** The half-open interval [start, start + length). */
  datatype Range = Range(start: int, length: int) {

    function End(): int
    {
      start + length
    }

    predicate Contains(v: int)
    {
      start <= v < End()
    }

    /** The source never builds a range of negative length. */
    predicate Valid()
    {
      length >= 0
    }
  }

  /** A rule of a stage: values inside `source` move by `offset`. */
  datatype MappedRange = MappedRange(source: Range, offset: int)

  /** Outcome of pushing one range through one rule. The source keeps an
      `unchanged` field that is `None` exactly when a transformation happened. */
  datatype TransformResult =
    | Unchanged(range: Range)
    | Transformed(moved: Range, remainders: seq<Range>)

  predicate AllValid(rs: seq<Range>)
  {
    forall i :: 0 <= i < |rs| ==> rs[i].Valid()
  }

  predicate AllPositive(rs: seq<Range>)
  {
    forall i :: 0 <= i < |rs| ==> rs[i].length > 0
  }

  predicate ValidRules(rules: seq<MappedRange>)
  {
    forall i :: 0 <= i < |rules| ==> rules[i].source.Valid()
  }

  predicate ValidStages(stages: seq<seq<MappedRange>>)
  {
    forall k :: 0 <= k < |stages| ==> ValidRules(stages[k])
  }

  /** Every rule of every stage has a non-empty source. */
  predicate PositiveStages(stages: seq<seq<MappedRange>>)
  {
    forall k, i :: 0 <= k < |stages| && 0 <= i < |stages[k]| ==> stages[k][i].source.length > 0
  }

  /** Total number of values covered by a list of ranges, counted with multiplicity. */
  function TotalLength(rs: seq<Range>): int
  {
    if |rs| == 0 then 0 else TotalLength(rs[..|rs| - 1]) + rs[|rs| - 1].length
  }

  lemma {:induction false} TotalLengthAppend(xs: seq<Range>, ys: seq<Range>)
    ensures TotalLength(xs + ys) == TotalLength(xs) + TotalLength(ys)
    decreases |ys|
  {
    if |ys| == 0 {
      assert xs + ys == xs;
    } else {
      assert (xs + ys)[..|xs + ys| - 1] == xs + ys[..|ys| - 1];
      TotalLengthAppend(xs, ys[..|ys| - 1]);
    }
  }

  /** `ranges_overlap`: one range contains the other's start. For ranges of positive
      length this is the usual test, so ranges that only touch do not overlap; any
      shared value forces an overlap whatever the lengths. */
  function Overlap(a: Range, b: Range): (r: bool)
    ensures a.length > 0 && b.length > 0 ==> (r <==> a.start < b.End() && b.start < a.End())
    ensures forall v :: a.Contains(v) && b.Contains(v) ==> r
  {
    (a.start <= b.start < a.End()) || (b.start <= a.start < b.End())
  }

  /** The test does not depend on the order of its arguments, whatever the lengths. */
  lemma OverlapSymmetric(a: Range, b: Range)
    ensures Overlap(a, b) == Overlap(b, a)
  {
  }

  /** For ranges of positive length, overlapping means sharing a value. */
  lemma OverlapMeansSharedValue(a: Range, b: Range)
    requires a.length > 0 && b.length > 0
    ensures Overlap(a, b) <==> exists v :: a.Contains(v) && b.Contains(v)
  {
    if Overlap(a, b) {
      var v := if a.start < b.start then b.start else a.start;
      assert a.Contains(v) && b.Contains(v);
    }
  }

  function Max(x: int, y: int): int
  {
    if x < y then y else x
  }

  function Min(x: int, y: int): int
  {
    if x < y then x else y
  }

  /** `range_intersect`, only meaningful after `ranges_overlap` said yes: the values
      in both ranges, from the later start to the earlier end. */
  function Intersect(a: Range, b: Range): (r: Range)
    requires a.Valid() && b.Valid() && Overlap(a, b)
    ensures r.Valid()
    ensures r.start == Max(a.start, b.start) && r.End() == Min(a.End(), b.End())
    ensures forall v :: r.Contains(v) <==> a.Contains(v) && b.Contains(v)
    ensures a.length > 0 && b.length > 0 ==> r.length > 0
  {
    var newStart := Max(a.start, b.start);
    var newEnd := Min(a.End(), b.End());
    Range(newStart, newEnd - newStart)
  }

  /** `apply_transform`. Without an overlap the input comes back unchanged; with one,
      a moved range and at most two non-empty remainders come back, and their lengths
      add up to the input's. */
  function ApplyTransform(input: Range, rule: MappedRange): (r: TransformResult)
    requires input.Valid() && rule.source.Valid()
    ensures !Overlap(input, rule.source) ==> r == Unchanged(input)
    ensures Overlap(input, rule.source) ==> r.Transformed? && |r.remainders| <= 2
    ensures r.Transformed? ==>
      && r.moved.Valid()
      && r.moved.length + TotalLength(r.remainders) == input.length
      && (forall i :: 0 <= i < |r.remainders| ==> r.remainders[i].length > 0)
    ensures r.Transformed? && input.length > 0 && rule.source.length > 0 ==> r.moved.length > 0
  {
    if Overlap(input, rule.source) then
      var core := Intersect(input, rule.source);
      var lowerLength := core.start - input.start;
      var lower := if lowerLength > 0 then [Range(input.start, lowerLength)] else [];
      var upperLength := input.End() - core.End();
      var upper := if upperLength > 0 then [Range(core.End(), upperLength)] else [];
      TotalLengthAppend(lower, upper);
      Transformed(Range(core.start + rule.offset, core.length), lower + upper)
    else
      Unchanged(input)
  }

  /** On an overlap, `apply_transform` cuts the input along the rule's source: the
      moved range holds exactly the input's values inside the source, shifted by the
      offset; the remainders lie in the input, outside the source, lower one first,
      and together hold every input value outside the source. */
  lemma TransformSplitsInput(input: Range, rule: MappedRange)
    requires input.Valid() && rule.source.Valid() && Overlap(input, rule.source)
    ensures var r := ApplyTransform(input, rule);
      && r.Transformed?
      && (forall v :: r.moved.Contains(v) <==>
            input.Contains(v - rule.offset) && rule.source.Contains(v - rule.offset))
      && (forall i, v :: 0 <= i < |r.remainders| && r.remainders[i].Contains(v) ==>
            input.Contains(v) && !rule.source.Contains(v))
      && (forall v :: input.Contains(v) && !rule.source.Contains(v) ==>
            exists i :: 0 <= i < |r.remainders| && r.remainders[i].Contains(v))
      && (|r.remainders| == 2 ==> r.remainders[0].End() <= r.remainders[1].start)
  {
    var r := ApplyTransform(input, rule);
    var core := Intersect(input, rule.source);
    var lowerLength := core.start - input.start;
    var upperLength := input.End() - core.End();
    var lower := if lowerLength > 0 then [Range(input.start, lowerLength)] else [];
    var upper := if upperLength > 0 then [Range(core.End(), upperLength)] else [];
    assert r == Transformed(Range(core.start + rule.offset, core.length), lower + upper);
    forall v ensures r.moved.Contains(v) <==> input.Contains(v - rule.offset) && rule.source.Contains(v - rule.offset) {
      assert core.Contains(v - rule.offset) <==> input.Contains(v - rule.offset) && rule.source.Contains(v - rule.offset);
    }
    forall i, v | 0 <= i < |r.remainders| && r.remainders[i].Contains(v)
      ensures input.Contains(v) && !rule.source.Contains(v)
    {
      if i < |lower| {
        assert r.remainders[i] == Range(input.start, lowerLength);
      } else {
        assert r.remainders[i] == Range(core.End(), upperLength);
      }
    }
    forall v | input.Contains(v) && !rule.source.Contains(v)
      ensures exists i :: 0 <= i < |r.remainders| && r.remainders[i].Contains(v)
    {
      if v < core.start {
        assert r.remainders[0].Contains(v);
      } else {
        assert r.remainders[|r.remainders| - 1].Contains(v);
      }
    }
  }

  /** Ranges claimed by a rule (already moved) and ranges still unclaimed after it. */
  datatype Sweep = Sweep(done: seq<Range>, left: seq<Range>)

  /** The inner loop of `apply_mapping`: every current range goes through one rule;
      the moved part is finished for this stage, the rest stays for the next rule. */
  function SweepRule(rs: seq<Range>, rule: MappedRange): (s: Sweep)
    requires AllValid(rs) && rule.source.Valid()
    ensures AllValid(s.done) && AllValid(s.left)
    ensures |s.done| + |s.left| >= |rs|
    ensures TotalLength(s.done) + TotalLength(s.left) == TotalLength(rs)
    ensures AllPositive(rs) && rule.source.length > 0 ==> AllPositive(s.done) && AllPositive(s.left)
  {
    if |rs| == 0 then Sweep([], [])
    else
      var previous := SweepRule(rs[..|rs| - 1], rule);
      var last := rs[|rs| - 1];
      match ApplyTransform(last, rule)
      case Unchanged(r) =>
        Sweep(previous.done, previous.left + [r])
      case Transformed(moved, rems) =>
        TotalLengthAppend(previous.left, rems);
        Sweep(previous.done + [moved], previous.left + rems)
  }

  /** `apply_mapping` for one stage: the pieces claimed by the first rule, then those
      claimed by the second, and so on, and finally whatever no rule claimed. */
  function ApplyMapping(rs: seq<Range>, rules: seq<MappedRange>): (out: seq<Range>)
    requires AllValid(rs) && ValidRules(rules)
    ensures AllValid(out)
    ensures |out| >= |rs|
    ensures TotalLength(out) == TotalLength(rs)
    ensures AllPositive(rs) && (forall i :: 0 <= i < |rules| ==> rules[i].source.length > 0) ==>
      AllPositive(out)
    decreases |rules|
  {
    if |rules| == 0 then rs
    else
      var s := SweepRule(rs, rules[0]);
      var rest := ApplyMapping(s.left, rules[1..]);
      TotalLengthAppend(s.done, rest);
      s.done + rest
  }

  /** The inner loop of `apply_mapping` as written: one pass of a rule over the
      current ranges, collecting claimed and unclaimed pieces. */
  method SweepLoop(current: seq<Range>, mapping: MappedRange)
    returns (claimed: seq<Range>, unmapped: seq<Range>)
    requires AllValid(current) && mapping.source.Valid()
    ensures Sweep(claimed, unmapped) == SweepRule(current, mapping)
    ensures TotalLength(claimed) + TotalLength(unmapped) == TotalLength(current)
  {
    claimed, unmapped := [], [];
    var j := 0;
    while j < |current|
      invariant 0 <= j <= |current|
      invariant SweepRule(current[..j], mapping) == Sweep(claimed, unmapped)
    {
      assert current[..j + 1][..j] == current[..j];
      var res := ApplyTransform(current[j], mapping);
      if res.Transformed? {
        unmapped := unmapped + res.remainders;
        claimed := claimed + [res.moved];
      } else {
        unmapped := unmapped + [res.range];
      }
      j := j + 1;
    }
    assert current[..|current|] == current;
  }

  /** The outer loop of `apply_mapping` as written: finished ranges accumulate rule
      by rule, and what no rule claimed is appended at the end. */
  method ApplyMappingLoop(ranges: seq<Range>, mappings: seq<MappedRange>) returns (next: seq<Range>)
    requires AllValid(ranges) && ValidRules(mappings)
    ensures next == ApplyMapping(ranges, mappings)
    ensures TotalLength(next) == TotalLength(ranges)
  {
    next := [];
    var current := ranges;
    var k := 0;
    while k < |mappings|
      invariant 0 <= k <= |mappings|
      invariant AllValid(current)
      invariant next + ApplyMapping(current, mappings[k..]) == ApplyMapping(ranges, mappings)
    {
      var claimed, unmapped := SweepLoop(current, mappings[k]);
      assert mappings[k..][1..] == mappings[k + 1..];
      next := next + claimed;
      current := unmapped;
      k := k + 1;
    }
    assert mappings[k..] == [];
    next := next + current;
  }

  /** `solution`'s fold: the output of each stage is the input of the next. */
  function RunPipeline(rs: seq<Range>, stages: seq<seq<MappedRange>>): (out: seq<Range>)
    requires AllValid(rs) && ValidStages(stages)
    ensures AllValid(out)
    ensures |out| >= |rs|
    ensures TotalLength(out) == TotalLength(rs)
    ensures AllPositive(rs) && PositiveStages(stages) ==> AllPositive(out)
    decreases |stages|
  {
    if |stages| == 0 then rs
    else RunPipeline(ApplyMapping(rs, stages[0]), stages[1..])
  }

  /** `min(current_ranges).start`: ranges are ordered by their start. */
  function MinStart(rs: seq<Range>): (m: int)
    requires |rs| > 0
    ensures exists i :: 0 <= i < |rs| && rs[i].start == m
    ensures forall i :: 0 <= i < |rs| ==> m <= rs[i].start
  {
    if |rs| == 1 then rs[0].start
    else Min(MinStart(rs[..|rs| - 1]), rs[|rs| - 1].start)
  }

  /** The answer of part two: the lowest location start after every stage. */
  function Solution(seeds: seq<Range>, stages: seq<seq<MappedRange>>): int
    requires |seeds| > 0 && AllValid(seeds) && ValidStages(stages)
  {
    MinStart(RunPipeline(seeds, stages))
  }

  /** The offset rule of `parse_mapping`: a table line `dest source length` becomes
      the source range plus the offset `dest - source`, so that a value `v` in the
      source lands on `dest + (v - source)`. */
  function RuleOf(destStart: int, sourceStart: int, length: int): (m: MappedRange)
    ensures m.source.start == sourceStart && m.source.length == length
    ensures forall v :: m.source.Contains(v) ==> v + m.offset == destStart + (v - sourceStart)
  {
    MappedRange(Range(sourceStart, length), destStart - sourceStart)
  }

  /** The pairing loop of `get_starting_ranges`: `start length start length ...`. */
  function SeedRanges(values: seq<int>): (rs: seq<Range>)
    requires |values| % 2 == 0
    ensures |rs| * 2 == |values|
    ensures forall k :: 0 <= k < |rs| ==> rs[k] == Range(values[2 * k], values[2 * k + 1])
  {
    if |values| == 0 then []
    else [Range(values[0], values[1])] + SeedRanges(values[2..])
  }

  /** The cases of `test_apply_transform` without a transformation: a rule far away,
      and a rule that only touches the end of the input. */
  lemma TransformExamplesUnchanged()
    ensures ApplyTransform(Range(0, 10), MappedRange(Range(100, 3), 100)) == Unchanged(Range(0, 10))
    ensures ApplyTransform(Range(0, 10), MappedRange(Range(10, 3), 100)) == Unchanged(Range(0, 10))
  {
    assert !Overlap(Range(0, 10), Range(100, 3));
    assert !Overlap(Range(0, 10), Range(10, 3));
  }

  /** `test_apply_transform` with only a lower remainder. */
  lemma TransformExampleLower()
    ensures ApplyTransform(Range(0, 11), MappedRange(Range(10, 3), 100)) ==
      Transformed(Range(110, 1), [Range(0, 10)])
  {
    assert Overlap(Range(0, 11), Range(10, 3));
  }

  /** `test_apply_transform` with a remainder on both sides, the lower one first. */
  lemma TransformExampleBoth()
    ensures ApplyTransform(Range(0, 11), MappedRange(Range(5, 2), 100)) ==
      Transformed(Range(105, 2), [Range(0, 5), Range(7, 4)])
  {
    assert Overlap(Range(0, 11), Range(5, 2));
  }

  /** A rule whose source overlaps none of the current ranges claims nothing: the
      sweep leaves every range unclaimed, in order. */
  lemma {:induction false} SweepUntouched(rs: seq<Range>, rule: MappedRange)
    requires AllValid(rs) && rule.source.Valid()
    requires forall i :: 0 <= i < |rs| ==> !Overlap(rs[i], rule.source)
    ensures SweepRule(rs, rule) == Sweep([], rs)
  {
    if |rs| > 0 {
      SweepUntouched(rs[..|rs| - 1], rule);
      assert rs[..|rs| - 1] + [rs[|rs| - 1]] == rs;
    }
  }

  /** A stage none of whose rules overlaps any of the ranges returns them as they
      are. */
  lemma {:induction false} MappingUntouched(rs: seq<Range>, rules: seq<MappedRange>)
    requires AllValid(rs) && ValidRules(rules)
    requires forall i, k :: 0 <= i < |rs| && 0 <= k < |rules| ==> !Overlap(rs[i], rules[k].source)
    ensures ApplyMapping(rs, rules) == rs
    decreases |rules|
  {
    if |rules| > 0 {
      SweepUntouched(rs, rules[0]);
      MappingUntouched(rs, rules[1..]);
      assert Sweep([], rs).done + rs == rs;
    }
  }

  /** The second stage of `test_apply_mapping`: no rule claims anything. */
  lemma MappingExampleSecondStage()
    ensures ApplyMapping([Range(81, 14), Range(57, 13)],
      [MappedRange(Range(15, 37), -15), MappedRange(Range(52, 2), -15), MappedRange(Range(0, 15), 39)])
      == [Range(81, 14), Range(57, 13)]
  {
    MappingUntouched([Range(81, 14), Range(57, 13)],
      [MappedRange(Range(15, 37), -15), MappedRange(Range(52, 2), -15), MappedRange(Range(0, 15), 39)]);
  }
}
