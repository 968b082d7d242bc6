/** What the interval pipeline of day5/day5_part2.py computes, value by value: it
    sends every value of every seed range exactly where the pointwise mapping of
    day5/day5.py sends it, so part two is part one run on the expanded seed ranges.
    Only the order of the values differs, so the statements are about multisets. */
module RangeRefinement {
  import opened RangeMapping
  import PointMapping

  /** The values of a range, in increasing order. */
  function Values(r: Range): (vs: seq<int>)
    requires r.Valid()
    ensures |vs| == r.length
  {
    seq(r.length, i requires 0 <= i < r.length => r.start + i)
  }

  /** The values of a list of ranges, range after range. */
  function Flatten(rs: seq<Range>): seq<int>
    requires AllValid(rs)
  {
    if |rs| == 0 then [] else Flatten(rs[..|rs| - 1]) + Values(rs[|rs| - 1])
  }

  /** The values of `xs` that lie in `src`, in order. */
  function Inside(src: Range, xs: seq<int>): seq<int>
  {
    if |xs| == 0 then []
    else Inside(src, xs[..|xs| - 1]) + (if src.Contains(xs[|xs| - 1]) then [xs[|xs| - 1]] else [])
  }

  /** The values of `xs` that lie outside `src`, in order. */
  function Outside(src: Range, xs: seq<int>): seq<int>
  {
    if |xs| == 0 then []
    else Outside(src, xs[..|xs| - 1]) + (if src.Contains(xs[|xs| - 1]) then [] else [xs[|xs| - 1]])
  }

  function Shift(xs: seq<int>, offset: int): (ys: seq<int>)
    ensures |ys| == |xs|
  {
    seq(|xs|, i requires 0 <= i < |xs| => xs[i] + offset)
  }

  lemma ShiftAppend(xs: seq<int>, ys: seq<int>, offset: int)
    ensures Shift(xs + ys, offset) == Shift(xs, offset) + Shift(ys, offset)
  {
  }

  /** The ranges a transform finished, and the ranges it left for later rules. */
  function Claimed(res: TransformResult): seq<Range>
  {
    if res.Transformed? then [res.moved] else []
  }

  function Unclaimed(res: TransformResult): seq<Range>
  {
    if res.Transformed? then res.remainders else [res.range]
  }

  lemma {:induction false} FlattenAppend(xs: seq<Range>, ys: seq<Range>)
    requires AllValid(xs) && AllValid(ys)
    ensures AllValid(xs + ys)
    ensures Flatten(xs + ys) == Flatten(xs) + Flatten(ys)
    decreases |ys|
  {
    if |ys| == 0 {
      assert xs + ys == xs;
    } else {
      var ys', last := ys[..|ys| - 1], ys[|ys| - 1];
      assert (xs + ys)[..|xs + ys| - 1] == xs + ys' && (xs + ys)[|xs + ys| - 1] == last;
      FlattenAppend(xs, ys');
      assert Flatten(xs + ys) == Flatten(xs + ys') + Values(last);
      assert Flatten(ys) == Flatten(ys') + Values(last);
    }
  }

  /** The number of values a list of ranges covers is its total length. */
  lemma {:induction false} FlattenLength(rs: seq<Range>)
    requires AllValid(rs)
    ensures |Flatten(rs)| == TotalLength(rs)
  {
    if |rs| > 0 {
      FlattenLength(rs[..|rs| - 1]);
    }
  }

  /** A value occurs in the flattened list exactly when some range contains it. */
  lemma {:induction false} FlattenMembership(rs: seq<Range>, v: int)
    requires AllValid(rs)
    ensures v in Flatten(rs) <==> exists i :: 0 <= i < |rs| && rs[i].Contains(v)
  {
    if |rs| > 0 {
      var init := rs[..|rs| - 1];
      FlattenMembership(init, v);
      var last := rs[|rs| - 1];
      if last.Contains(v) {
        assert Values(last)[v - last.start] == v;
      }
      if v in Flatten(rs) && v !in Flatten(init) {
        var k :| 0 <= k < |Values(last)| && Values(last)[k] == v;
        assert last.Contains(v);
      }
      if exists i :: 0 <= i < |rs| && rs[i].Contains(v) {
        var i :| 0 <= i < |rs| && rs[i].Contains(v);
        if i < |rs| - 1 {
          assert init[i] == rs[i];
        }
      }
    }
  }

  lemma {:induction false} InsideOutsideAppend(src: Range, xs: seq<int>, ys: seq<int>)
    ensures Inside(src, xs + ys) == Inside(src, xs) + Inside(src, ys)
    ensures Outside(src, xs + ys) == Outside(src, xs) + Outside(src, ys)
    decreases |ys|
  {
    if |ys| == 0 {
      assert xs + ys == xs;
    } else {
      var ys' := ys[..|ys| - 1];
      assert (xs + ys)[..|xs + ys| - 1] == xs + ys';
      InsideOutsideAppend(src, xs, ys');
    }
  }

  lemma {:induction false} AllInside(src: Range, xs: seq<int>)
    requires forall i :: 0 <= i < |xs| ==> src.Contains(xs[i])
    ensures Inside(src, xs) == xs && Outside(src, xs) == []
  {
    if |xs| > 0 {
      AllInside(src, xs[..|xs| - 1]);
    }
  }

  lemma {:induction false} AllOutside(src: Range, xs: seq<int>)
    requires forall i :: 0 <= i < |xs| ==> !src.Contains(xs[i])
    ensures Inside(src, xs) == [] && Outside(src, xs) == xs
  {
    if |xs| > 0 {
      AllOutside(src, xs[..|xs| - 1]);
    }
  }

  lemma ValuesSplit(start: int, a: nat, b: nat)
    ensures Values(Range(start, a + b)) == Values(Range(start, a)) + Values(Range(start + a, b))
  {
  }

  /** Moving a range moves each of its values. */
  lemma ValuesShift(r: Range, offset: int)
    requires r.Valid()
    ensures Values(Range(r.start + offset, r.length)) == Shift(Values(r), offset)
  {
  }

  /** The remainders of a cut, as `apply_transform` builds them, hold the values below
      the core followed by the values above it. */
  lemma RemainderValues(lower: Range, upper: Range)
    requires lower.Valid() && upper.Valid()
    ensures var rems := (if lower.length > 0 then [lower] else []) + (if upper.length > 0 then [upper] else []);
      AllValid(rems) && Flatten(rems) == Values(lower) + Values(upper)
  {
    var rems := (if lower.length > 0 then [lower] else []) + (if upper.length > 0 then [upper] else []);
    if lower.length > 0 && upper.length > 0 {
      assert rems == [lower, upper] && rems[..1] == [lower];
      FlattenOne(lower);
    } else if lower.length > 0 {
      assert rems == [lower] && Values(upper) == [];
      FlattenOne(lower);
    } else if upper.length > 0 {
      assert rems == [upper] && Values(lower) == [];
      FlattenOne(upper);
    } else {
      assert rems == [] && Values(lower) == [] && Values(upper) == [];
    }
  }

  lemma FlattenOne(r: Range)
    requires r.Valid()
    ensures Flatten([r]) == Values(r)
  {
    assert [r][..0] == [];
  }

  /** Cutting a range at the core's ends: the values below, inside and above. */
  lemma ValuesThreeWay(input: Range, core: Range)
    requires input.Valid() && core.Valid()
    requires input.start <= core.start && core.End() <= input.End()
    ensures Values(input) ==
      Values(Range(input.start, core.start - input.start)) + Values(core) +
      Values(Range(core.End(), input.End() - core.End()))
  {
    ValuesSplit(input.start, core.start - input.start, core.length + (input.End() - core.End()));
    ValuesSplit(core.start, core.length, input.End() - core.End());
  }

  /** Filtering the three parts of a cut: only the middle one lies in the source. */
  lemma FilterThreeWay(src: Range, L: seq<int>, C: seq<int>, U: seq<int>)
    requires forall i :: 0 <= i < |L| ==> !src.Contains(L[i])
    requires forall i :: 0 <= i < |C| ==> src.Contains(C[i])
    requires forall i :: 0 <= i < |U| ==> !src.Contains(U[i])
    ensures Inside(src, L + C + U) == C
    ensures Outside(src, L + C + U) == L + U
  {
    var LC := L + C;
    assert Inside(src, LC) == C && Outside(src, LC) == L by {
      AllOutside(src, L);
      AllInside(src, C);
      InsideOutsideAppend(src, L, C);
      assert [] + C == C && L + [] == L;
    }
    AllOutside(src, U);
    InsideOutsideAppend(src, LC, U);
    assert C + [] == C;
  }

  /** The pieces of an overlapping transform, named. */
  lemma TransformPieces(input: Range, rule: MappedRange)
    requires input.Valid() && rule.source.Valid() && Overlap(input, rule.source)
    ensures var core := Intersect(input, rule.source);
      var lower := Range(input.start, core.start - input.start);
      var upper := Range(core.End(), input.End() - core.End());
      ApplyTransform(input, rule) == Transformed(
        Range(core.start + rule.offset, core.length),
        (if lower.length > 0 then [lower] else []) + (if upper.length > 0 then [upper] else []))
  {
  }

  lemma TransformValuesOverlap(input: Range, rule: MappedRange)
    requires input.Valid() && rule.source.Valid() && Overlap(input, rule.source)
    ensures AllValid(Claimed(ApplyTransform(input, rule)))
    ensures AllValid(Unclaimed(ApplyTransform(input, rule)))
    ensures Flatten(Claimed(ApplyTransform(input, rule))) ==
      Shift(Inside(rule.source, Values(input)), rule.offset)
    ensures Flatten(Unclaimed(ApplyTransform(input, rule))) ==
      Outside(rule.source, Values(input))
  {
    var res := ApplyTransform(input, rule);
    var src := rule.source;
    var core := Intersect(input, src);
    var lower := Range(input.start, core.start - input.start);
    var upper := Range(core.End(), input.End() - core.End());
    var L, C, U := Values(lower), Values(core), Values(upper);
    ValuesThreeWay(input, core);
    FilterThreeWay(src, L, C, U);
    TransformPieces(input, rule);
    assert Flatten(Claimed(res)) == Shift(Inside(src, Values(input)), rule.offset) by {
      ValuesShift(core, rule.offset);
      assert Claimed(res) == [res.moved];
      FlattenOne(res.moved);
    }
    assert Flatten(Unclaimed(res)) == Outside(src, Values(input)) by {
      RemainderValues(lower, upper);
    }
  }

  /** One transform, value by value: the claimed range holds exactly the input's values
      inside the rule's source, shifted by the offset and in order, and the
      remainders hold exactly the others, in order. */
  lemma TransformValues(input: Range, rule: MappedRange)
    requires input.Valid() && rule.source.Valid()
    ensures AllValid(Claimed(ApplyTransform(input, rule)))
    ensures AllValid(Unclaimed(ApplyTransform(input, rule)))
    ensures Flatten(Claimed(ApplyTransform(input, rule))) ==
      Shift(Inside(rule.source, Values(input)), rule.offset)
    ensures Flatten(Unclaimed(ApplyTransform(input, rule))) ==
      Outside(rule.source, Values(input))
  {
    var src := rule.source;
    if Overlap(input, src) {
      TransformValuesOverlap(input, rule);
    } else {
      forall i | 0 <= i < |Values(input)|
        ensures !src.Contains(Values(input)[i])
      {
        assert input.Contains(Values(input)[i]);
      }
      AllOutside(src, Values(input));
      assert Unclaimed(ApplyTransform(input, rule)) == [input];
      assert [input][..0] == [];
    }
  }

  /** One pass of a rule over a list of ranges, value by value. */
  lemma {:induction false} SweepValues(rs: seq<Range>, rule: MappedRange)
    requires AllValid(rs) && rule.source.Valid()
    ensures Flatten(SweepRule(rs, rule).done) == Shift(Inside(rule.source, Flatten(rs)), rule.offset)
    ensures Flatten(SweepRule(rs, rule).left) == Outside(rule.source, Flatten(rs))
  {
    if |rs| > 0 {
      var init, last := rs[..|rs| - 1], rs[|rs| - 1];
      var previous := SweepRule(init, rule);
      SweepValues(init, rule);
      TransformValues(last, rule);
      InsideOutsideAppend(rule.source, Flatten(init), Values(last));
      var res := ApplyTransform(last, rule);
      var a, b := Inside(rule.source, Flatten(init)), Inside(rule.source, Values(last));
      ShiftAppend(a, b, rule.offset);
      FlattenAppend(previous.left, Unclaimed(res));
      FlattenAppend(previous.done, Claimed(res));
    }
  }

  /** The rules of a stage as `parse_mapping` builds them from the table lines. */
  function Rules(ms: seq<PointMapping.MappedRange>): (rules: seq<MappedRange>)
    ensures |rules| == |ms|
    ensures forall i :: 0 <= i < |ms| ==>
      rules[i] == RuleOf(ms[i].destStart, ms[i].sourceStart, ms[i].range)
  {
    if |ms| == 0 then []
    else [RuleOf(ms[0].destStart, ms[0].sourceStart, ms[0].range)] + Rules(ms[1..])
  }

  function StageRules(mss: seq<seq<PointMapping.MappedRange>>): (stages: seq<seq<MappedRange>>)
    ensures |stages| == |mss|
    ensures forall k :: 0 <= k < |mss| ==> stages[k] == Rules(mss[k])
  {
    if |mss| == 0 then [] else [Rules(mss[0])] + StageRules(mss[1..])
  }

  /** No table line has a negative length. */
  predicate ValidTable(ms: seq<PointMapping.MappedRange>)
  {
    forall i :: 0 <= i < |ms| ==> ms[i].range >= 0
  }

  lemma MultisetAppendLeft(p: seq<int>, a: seq<int>, q: seq<int>, x: int)
    requires multiset(p) == multiset(a) + multiset(q)
    ensures multiset(p + [x]) == multiset(a + [x]) + multiset(q)
  {
  }

  lemma MultisetAppendRight(p: seq<int>, a: seq<int>, q: seq<int>, x: int)
    requires multiset(p) == multiset(a) + multiset(q)
    ensures multiset(p + [x]) == multiset(a) + multiset(q + [x])
  {
  }

  /** The source range and offset `parse_mapping` derives from a table line. */
  function SourceOf(m: PointMapping.MappedRange): Range
  {
    RuleOf(m.destStart, m.sourceStart, m.range).source
  }

  function OffsetOf(m: PointMapping.MappedRange): int
  {
    RuleOf(m.destStart, m.sourceStart, m.range).offset
  }

  /** The pointwise stage splits the same way: values in the first rule's source move
      by its offset, the others go through the remaining rules. */
  lemma {:induction false} PointwiseSplit(xs: seq<int>, ms: seq<PointMapping.MappedRange>)
    requires |ms| > 0
    ensures multiset(PointMapping.ApplyMapping(xs, ms)) ==
      multiset(Shift(Inside(SourceOf(ms[0]), xs), OffsetOf(ms[0]))) +
      multiset(PointMapping.ApplyMapping(Outside(SourceOf(ms[0]), xs), ms[1..]))
  {
    var src, offset := SourceOf(ms[0]), OffsetOf(ms[0]);
    if |xs| > 0 {
      var init, x := xs[..|xs| - 1], xs[|xs| - 1];
      PointwiseSplit(init, ms);
      var a, c := Inside(src, init), Outside(src, init);
      var rest := ms[1..];
      var p, q := PointMapping.ApplyMapping(init, ms), PointMapping.ApplyMapping(c, rest);
      var fx := PointMapping.MapValue(ms, x);
      assert PointMapping.ApplyMapping(xs, ms) == p + [fx];
      if src.Contains(x) {
        assert fx == x + offset;
        assert Inside(src, xs) == a + [x];
        assert Outside(src, xs) == c;
        ShiftAppend(a, [x], offset);
        assert Shift([x], offset) == [fx];
        MultisetAppendLeft(p, Shift(a, offset), q, fx);
      } else {
        assert fx == PointMapping.MapValue(rest, x);
        assert Inside(src, xs) == a;
        assert Outside(src, xs) == c + [x];
        assert PointMapping.ApplyMapping(c + [x], rest) == q + [fx];
        MultisetAppendRight(p, Shift(a, offset), q, fx);
      }
    }
  }

  /** The headline refinement for one stage: the interval stage produces, as a
      multiset, exactly the values the pointwise stage produces from the seed values,
      with every value moved by the first rule whose source holds it. */
  lemma {:induction false} StageMatchesPointwise(rs: seq<Range>, ms: seq<PointMapping.MappedRange>)
    requires AllValid(rs) && ValidTable(ms)
    ensures ValidRules(Rules(ms))
    ensures multiset(Flatten(ApplyMapping(rs, Rules(ms)))) ==
      multiset(PointMapping.ApplyMapping(Flatten(rs), ms))
    decreases |ms|
  {
    var rules := Rules(ms);
    if |ms| > 0 {
      var rule, rest := rules[0], ms[1..];
      var s := SweepRule(rs, rule);
      assert rules[1..] == Rules(rest);
      var tail := ApplyMapping(s.left, Rules(rest));
      assert ApplyMapping(rs, rules) == s.done + tail;
      var F, src, offset := Flatten(rs), SourceOf(ms[0]), OffsetOf(ms[0]);
      assert rule.source == src && rule.offset == offset;
      var D, T := Flatten(s.done), Flatten(tail);
      SweepValues(rs, rule);
      assert D == Shift(Inside(src, F), offset);
      assert Flatten(s.left) == Outside(src, F);
      StageMatchesPointwise(s.left, rest);
      assert multiset(T) == multiset(PointMapping.ApplyMapping(Outside(src, F), rest));
      FlattenAppend(s.done, tail);
      assert Flatten(ApplyMapping(rs, rules)) == D + T;
      PointwiseSplit(F, ms);
      calc {
        multiset(Flatten(ApplyMapping(rs, rules)));
        multiset(D) + multiset(T);
        multiset(PointMapping.ApplyMapping(F, ms));
      }
    } else {
      PointMapping.EmptyStageIsIdentity(Flatten(rs));
    }
  }

  /** The same for the whole pipeline of stages. */
  lemma {:induction false} PipelineMatchesPointwise(rs: seq<Range>, mss: seq<seq<PointMapping.MappedRange>>)
    requires AllValid(rs) && forall k :: 0 <= k < |mss| ==> ValidTable(mss[k])
    ensures ValidStages(StageRules(mss))
    ensures multiset(Flatten(RunPipeline(rs, StageRules(mss)))) ==
      multiset(PointMapping.RunStages(Flatten(rs), mss))
    decreases |mss|
  {
    var stages := StageRules(mss);
    assert ValidStages(stages) by {
      forall k | 0 <= k < |mss| ensures ValidRules(stages[k]) {
        StageMatchesPointwise([], mss[k]);
      }
    }
    if |mss| > 0 {
      var next := ApplyMapping(rs, stages[0]);
      StageMatchesPointwise(rs, mss[0]);
      assert stages[1..] == StageRules(mss[1..]);
      PipelineMatchesPointwise(next, mss[1..]);
      PointMapping.RunStagesPermutation(
        Flatten(next), PointMapping.ApplyMapping(Flatten(rs), mss[0]), mss[1..]);
    }
  }

  /** For ranges that all hold values, the smallest start is the smallest value. */
  lemma MinStartIsMinValue(rs: seq<Range>)
    requires |rs| > 0 && AllPositive(rs)
    ensures AllValid(rs) && |Flatten(rs)| > 0
    ensures MinStart(rs) == PointMapping.MinValue(Flatten(rs))
  {
    var m := MinStart(rs);
    var i :| 0 <= i < |rs| && rs[i].start == m;
    FlattenMembership(rs, m);
    assert rs[i].Contains(m);
    var v := PointMapping.MinValue(Flatten(rs));
    FlattenMembership(rs, v);
    var j :| 0 <= j < |rs| && rs[j].Contains(v);
    assert m <= rs[j].start <= v;
    assert v <= m by {
      var k :| 0 <= k < |Flatten(rs)| && Flatten(rs)[k] == m;
    }
  }

  /** The answer of part two equals the answer of part one run on every value of the
      seed ranges, provided no seed range and no table line is empty. */
  lemma PartTwoIsPartOneOnExpandedSeeds(seeds: seq<Range>, mss: seq<seq<PointMapping.MappedRange>>)
    requires |seeds| > 0 && AllPositive(seeds)
    requires forall k, i :: 0 <= k < |mss| && 0 <= i < |mss[k]| ==> mss[k][i].range > 0
    ensures AllValid(seeds) && |Flatten(seeds)| > 0 && ValidStages(StageRules(mss))
    ensures Solution(seeds, StageRules(mss)) == PointMapping.Solution(Flatten(seeds), mss)
  {
    PipelineMatchesPointwise(seeds, mss);
    var stages := StageRules(mss);
    assert PositiveStages(stages);
    var out := RunPipeline(seeds, stages);
    MinStartIsMinValue(out);
    MinStartIsMinValue(seeds);
    PointMapping.MinValuePermutation(Flatten(out), PointMapping.RunStages(Flatten(seeds), mss));
  }

  /** A stage conserves the number of values it carries. */
  lemma StageConservesValues(rs: seq<Range>, ms: seq<PointMapping.MappedRange>)
    requires AllValid(rs) && ValidTable(ms)
    ensures ValidRules(Rules(ms))
    ensures |Flatten(ApplyMapping(rs, Rules(ms)))| == |Flatten(rs)|
  {
    StageMatchesPointwise(rs, ms);
    var out := ApplyMapping(rs, Rules(ms));
    assert |multiset(Flatten(out))| == |multiset(PointMapping.ApplyMapping(Flatten(rs), ms))|;
  }

  /** Why the agreement needs ranges of positive length: an empty seed range holds no
      value, yet `min(current_ranges).start` still reads its start. */
  lemma EmptySeedRangeDiverges()
    ensures Solution([Range(3, 0), Range(10, 5)], []) == 3
    ensures PointMapping.Solution(Flatten([Range(3, 0), Range(10, 5)]), []) == 10
  {
    var rs := [Range(3, 0), Range(10, 5)];
    assert rs[..1] == [Range(3, 0)] && [Range(3, 0)][..0] == [];
    var vs := Flatten(rs);
    assert vs == [10, 11, 12, 13, 14];
    assert PointMapping.RunStages(vs, []) == vs;
    var m := PointMapping.MinValue(vs);
    assert m in vs && m <= vs[0];
  }

  /** A table line of range 0 whose source start lies inside a seed range still
      "overlaps" it, so `apply_transform` cuts out an empty piece and moves it to
      the line's destination. */
  lemma ZeroLengthRuleTransform(input: Range, d: int, s: int)
    requires input.Valid() && input.start <= s < input.End()
    ensures var r := ApplyTransform(input, RuleOf(d, s, 0));
      && r.Transformed?
      && r.moved == Range(d, 0)
      && |r.remainders| > 0 && r.remainders[0].start == input.start
      && (forall i :: 0 <= i < |r.remainders| ==> r.remainders[i].start >= input.start)
  {
    assert Overlap(input, Range(s, 0));
  }

  /** One rule swept over a single range: its claimed and unclaimed pieces. */
  lemma SweepSingle(input: Range, rule: MappedRange)
    requires input.Valid() && rule.source.Valid()
    ensures SweepRule([input], rule) ==
      Sweep(Claimed(ApplyTransform(input, rule)), Unclaimed(ApplyTransform(input, rule)))
  {
    assert [input][..0] == [];
  }

  /** A stage of one rule: what the rule claimed, then what it left. */
  lemma MappingSingleRule(rs: seq<Range>, rule: MappedRange)
    requires AllValid(rs) && rule.source.Valid()
    ensures ValidRules([rule])
    ensures ApplyMapping(rs, [rule]) == SweepRule(rs, rule).done + SweepRule(rs, rule).left
  {
    assert [rule][1..] == [];
  }

  /** A pipeline of one stage is that stage. */
  lemma PipelineSingleStage(rs: seq<Range>, rules: seq<MappedRange>)
    requires AllValid(rs) && ValidRules(rules)
    ensures ValidStages([rules])
    ensures RunPipeline(rs, [rules]) == ApplyMapping(rs, rules)
  {
    assert [rules][1..] == [];
  }

  /** A pipeline of one stage of one rule over a single range. */
  lemma PipelineSingle(input: Range, rule: MappedRange)
    requires input.Valid() && rule.source.Valid()
    ensures ValidStages([[rule]])
    ensures RunPipeline([input], [[rule]]) ==
      Claimed(ApplyTransform(input, rule)) + Unclaimed(ApplyTransform(input, rule))
  {
    SweepSingle(input, rule);
    MappingSingleRule([input], rule);
    PipelineSingleStage([input], [rule]);
  }

  /** The whole one-stage pipeline: the empty moved piece comes first, then the
      pieces of the seed range. */
  lemma ZeroLengthRulePipeline(input: Range, d: int, s: int)
    requires input.Valid() && input.start <= s < input.End()
    ensures RunPipeline([input], [[RuleOf(d, s, 0)]]) ==
      [Range(d, 0)] + ApplyTransform(input, RuleOf(d, s, 0)).remainders
  {
    ZeroLengthRuleTransform(input, d, s);
    PipelineSingle(input, RuleOf(d, s, 0));
  }

  /** Part one on the same input: a line of range 0 covers no value, so every value
      passes through and the answer is the seed range's start. */
  lemma ZeroLengthRulePointwise(input: Range, d: int, s: int)
    requires input.Valid() && input.length > 0
    ensures |Flatten([input])| > 0
    ensures PointMapping.Solution(Flatten([input]), [[PointMapping.MappedRange(d, s, 0)]]) == input.start
  {
    var line := PointMapping.MappedRange(d, s, 0);
    FlattenOne(input);
    var vs := Values(input);
    PointMapping.ApplyMappingPointwise(vs, [line]);
    forall i | 0 <= i < |vs|
      ensures PointMapping.ApplyMapping(vs, [line])[i] == vs[i]
    {
      PointMapping.MapValueNoMatch([line], vs[i]);
    }
    assert PointMapping.RunStages(vs, [[line]]) == vs;
    assert vs[0] == input.start;
  }

  /** The stages `parse_mapping` builds from the single table line `d s 0`. */
  lemma ZeroLengthLineRules(d: int, s: int)
    ensures StageRules([[PointMapping.MappedRange(d, s, 0)]]) == [[RuleOf(d, s, 0)]]
  {
    var line := PointMapping.MappedRange(d, s, 0);
    assert Rules([line]) == [RuleOf(d, s, 0)];
  }

  /** The smallest start after that one-stage pipeline. */
  lemma ZeroLengthRuleMinStart(input: Range, d: int, s: int)
    requires input.Valid() && input.start <= s < input.End()
    ensures Solution([input], [[RuleOf(d, s, 0)]]) == Min(d, input.start)
  {
    ZeroLengthRuleTransform(input, d, s);
    ZeroLengthRulePipeline(input, d, s);
    var rems := ApplyTransform(input, RuleOf(d, s, 0)).remainders;
    var out := RunPipeline([input], [[RuleOf(d, s, 0)]]);
    var m := MinStart(out);
    assert m <= out[0].start == d;
    assert m <= out[1].start == rems[0].start == input.start;
    var i :| 0 <= i < |out| && out[i].start == m;
    if i > 0 {
      assert out[i] == rems[i - 1];
    }
  }

  /** Why the agreement needs table lines of positive length: with a line `d s 0`
      whose source start lies in the seed range, part two answers the smaller of `d`
      and the seed range's start, while part one, which never matches such a line,
      answers the start. Any `d` below the start is reached by no seed value. */
  lemma ZeroLengthRuleDiverges(input: Range, d: int, s: int)
    requires input.Valid() && input.start <= s < input.End()
    ensures ValidStages(StageRules([[PointMapping.MappedRange(d, s, 0)]])) && |Flatten([input])| > 0
    ensures Solution([input], StageRules([[PointMapping.MappedRange(d, s, 0)]])) == Min(d, input.start)
    ensures PointMapping.Solution(Flatten([input]), [[PointMapping.MappedRange(d, s, 0)]]) == input.start
  {
    ZeroLengthLineRules(d, s);
    ZeroLengthRuleMinStart(input, d, s);
    ZeroLengthRulePointwise(input, d, s);
  }
}
