/** day2/day2.py: games of grabs from a bag of coloured cubes. Part one keeps the ids of
    the games whose every grab fits the fixed bag (12 red, 13 green, 14 blue); part two
    multiplies, per game, the largest count seen of each colour. Python dictionaries
    are modelled as association lists in insertion order, which is how they iterate. */
module CubeGame {
  import opened Common

  /** One `count colour` pair of a grab. */
  datatype Draw = Draw(count: int, color: string)

  /** A dictionary entry. */
  datatype Entry = Entry(color: string, count: int)

  /** A game line after parsing: its id and its grabs. A line the pattern does not
      match is `NoMatch`. */
  datatype Line = Game(id: int, grabs: seq<seq<Draw>>) | NoMatch

  /** `LIMITS`, a `defaultdict(int)`: a colour it does not name has limit 0. */
  function Limit(color: string): nat
  {
    if color == "red" then 12 else if color == "green" then 13 else if color == "blue" then 14 else 0
  }

  predicate DistinctKeys(d: seq<Entry>)
  {
    forall i, j :: 0 <= i < j < |d| ==> d[i].color != d[j].color
  }

  predicate HasKey(d: seq<Entry>, color: string)
  {
    exists i :: 0 <= i < |d| && d[i].color == color
  }

  /** `d[color]` on a `defaultdict(int)`: the stored count, or 0. */
  function Lookup(d: seq<Entry>, color: string): (n: int)
    ensures !HasKey(d, color) ==> n == 0
    ensures forall i :: 0 <= i < |d| && d[i].color == color && DistinctKeys(d) ==> n == d[i].count
  {
    if |d| == 0 then 0
    else if d[0].color == color then d[0].count
    else Lookup(d[1..], color)
  }

  /** `d[color] = n`: overwrite in place, or append a new key at the end. */
  function Store(d: seq<Entry>, color: string, n: int): seq<Entry>
  {
    if |d| == 0 then [Entry(color, n)]
    else if d[0].color == color then [Entry(color, n)] + d[1..]
    else [d[0]] + Store(d[1..], color, n)
  }

  lemma HasKeyCons(e: Entry, d: seq<Entry>, c: string)
    ensures HasKey([e] + d, c) <==> e.color == c || HasKey(d, c)
  {
    if HasKey(d, c) {
      var i :| 0 <= i < |d| && d[i].color == c;
      assert ([e] + d)[i + 1].color == c;
    }
    if e.color == c {
      assert ([e] + d)[0].color == c;
    }
    if HasKey([e] + d, c) && e.color != c {
      var i :| 0 <= i < |[e] + d| && ([e] + d)[i].color == c;
      assert d[i - 1].color == c;
    }
  }

  /** Storing a count changes that colour's value only, and adds its key. */
  lemma {:induction false} StoreLookup(d: seq<Entry>, color: string, n: int, c: string)
    requires DistinctKeys(d)
    ensures DistinctKeys(Store(d, color, n))
    ensures Lookup(Store(d, color, n), c) == if c == color then n else Lookup(d, c)
    ensures HasKey(Store(d, color, n), c) <==> HasKey(d, c) || c == color
  {
    if |d| == 0 {
      assert Store(d, color, n)[0].color == color;
    } else {
      var head, tail := d[0], d[1..];
      assert d == [head] + tail;
      HasKeyCons(head, tail, c);
      if head.color == color {
        HasKeyCons(Entry(color, n), tail, c);
      } else {
        StoreLookup(tail, color, n, c);
        StoreLookup(tail, color, n, head.color);
        var rest := Store(tail, color, n);
        HasKeyCons(head, rest, c);
        assert !HasKey(tail, head.color) by {
          forall i | 0 <= i < |tail| ensures tail[i].color != head.color {
            assert tail[i] == d[i + 1];
          }
        }
        assert forall j :: 0 <= j < |rest| ==> rest[j].color != head.color;
        assert DistinctKeys([head] + rest) by {
          forall i, j | 0 <= i < j < |[head] + rest|
            ensures ([head] + rest)[i].color != ([head] + rest)[j].color
          {
            if i > 0 {
              assert ([head] + rest)[i] == rest[i - 1];
            }
          }
        }
      }
    }
  }

  /** `create_block_dict`: the dict comprehension over the draws of a grab; a colour
      drawn twice keeps its first position and its last count. */
  function BlockDict(draws: seq<Draw>): (d: seq<Entry>)
    ensures DistinctKeys(d)
  {
    if |draws| == 0 then []
    else
      var last := draws[|draws| - 1];
      StoreLookup(BlockDict(draws[..|draws| - 1]), last.color, last.count, last.color);
      Store(BlockDict(draws[..|draws| - 1]), last.color, last.count)
  }

  /** `valid_input`: the first colour over its limit makes the grab invalid. */
  function ValidInput(d: seq<Entry>): (ok: bool)
    ensures ok <==> forall i :: 0 <= i < |d| ==> d[i].count <= Limit(d[i].color)
  {
    if |d| == 0 then true
    else if d[0].count > Limit(d[0].color) then false
    else ValidInput(d[1..])
  }

  /** One grab folded into `min_counts`: each of its colours is raised to the larger
      of the stored and the drawn count (a missing colour reads as 0). */
  function RaiseAll(mins: seq<Entry>, blocks: seq<Entry>): seq<Entry>
    decreases |blocks|
  {
    if |blocks| == 0 then mins
    else
      var b := blocks[0];
      RaiseAll(Store(mins, b.color, Max(Lookup(mins, b.color), b.count)), blocks[1..])
  }

  function Max(a: int, b: int): int
  {
    if a >= b then a else b
  }

  /** `min_counts` after the loop over the grabs of a game. */
  function MinCounts(grabs: seq<seq<Draw>>): seq<Entry>
  {
    if |grabs| == 0 then []
    else RaiseAll(MinCounts(grabs[..|grabs| - 1]), BlockDict(grabs[|grabs| - 1]))
  }

  /** `valid` after the loop: every grab passed `valid_input`. */
  function AllValid(grabs: seq<seq<Draw>>): bool
  {
    if |grabs| == 0 then true
    else AllValid(grabs[..|grabs| - 1]) && ValidInput(BlockDict(grabs[|grabs| - 1]))
  }

  /** `parse_line`. */
  function ParseLine(line: Line, partTwo: bool): int
  {
    match line
    case NoMatch => 0
    case Game(id, grabs) =>
      if partTwo then Product(Counts(MinCounts(grabs)))
      else if AllValid(grabs) then id else 0
  }

  function Counts(d: seq<Entry>): (ns: seq<int>)
    ensures |ns| == |d|
    ensures forall i :: 0 <= i < |d| ==> ns[i] == d[i].count
  {
    if |d| == 0 then [] else Counts(d[..|d| - 1]) + [d[|d| - 1].count]
  }

  /** `solution`: the per-line results, summed. */
  function Solution(lines: seq<Line>, partTwo: bool): int
  {
    if |lines| == 0 then 0
    else Solution(lines[..|lines| - 1], partTwo) + ParseLine(lines[|lines| - 1], partTwo)
  }

  /** The count a grab's dictionary holds for a colour, from the draws themselves: the
      count of the last draw of that colour, or 0 when it is not drawn. */
  function LastCount(draws: seq<Draw>, color: string): int
  {
    if |draws| == 0 then 0
    else if draws[|draws| - 1].color == color then draws[|draws| - 1].count
    else LastCount(draws[..|draws| - 1], color)
  }

  predicate Drawn(draws: seq<Draw>, color: string)
  {
    exists i :: 0 <= i < |draws| && draws[i].color == color
  }

  /** The dictionary of a grab holds exactly the colours drawn, each with the count of
      its last draw. */
  lemma DrawnSnoc(init: seq<Draw>, last: Draw, c: string)
    ensures Drawn(init + [last], c) <==> Drawn(init, c) || last.color == c
  {
    if Drawn(init + [last], c) && last.color != c {
      var i :| 0 <= i < |init + [last]| && (init + [last])[i].color == c;
      assert init[i].color == c;
    }
    if Drawn(init, c) {
      var i :| 0 <= i < |init| && init[i].color == c;
      assert (init + [last])[i].color == c;
    }
    if last.color == c {
      assert (init + [last])[|init|].color == c;
    }
  }

  lemma {:induction false} BlockDictContents(draws: seq<Draw>, c: string)
    ensures Lookup(BlockDict(draws), c) == LastCount(draws, c)
    ensures HasKey(BlockDict(draws), c) <==> Drawn(draws, c)
  {
    if |draws| > 0 {
      var init, last := draws[..|draws| - 1], draws[|draws| - 1];
      assert draws == init + [last];
      BlockDictContents(init, c);
      StoreLookup(BlockDict(init), last.color, last.count, c);
      DrawnSnoc(init, last, c);
    }
  }

  /** `valid_input` holds exactly when no colour exceeds its limit. */
  lemma ValidInputWithinLimits(d: seq<Entry>)
    requires DistinctKeys(d)
    ensures ValidInput(d) <==> forall c :: Lookup(d, c) <= Limit(c)
  {
    if ValidInput(d) {
      forall c ensures Lookup(d, c) <= Limit(c) {
        if HasKey(d, c) {
          var i :| 0 <= i < |d| && d[i].color == c;
        }
      }
    }
    if forall c :: Lookup(d, c) <= Limit(c) {
      forall i | 0 <= i < |d| ensures d[i].count <= Limit(d[i].color) {
        assert Lookup(d, d[i].color) == d[i].count;
      }
    }
  }

  /** A colour `LIMITS` does not name may not be drawn at all. */
  lemma UnknownColorInvalid(draws: seq<Draw>, c: string)
    requires c != "red" && c != "green" && c != "blue"
    requires LastCount(draws, c) > 0
    ensures !ValidInput(BlockDict(draws))
  {
    BlockDictContents(draws, c);
    ValidInputWithinLimits(BlockDict(draws));
  }

  /** Folding one grab into `min_counts` raises every colour the grab draws to the
      larger of the two counts, leaves the other colours alone, and adds the grab's
      colours to the keys. */
  lemma {:induction false} RaiseAllContents(mins: seq<Entry>, blocks: seq<Entry>, c: string)
    requires DistinctKeys(mins) && DistinctKeys(blocks)
    ensures DistinctKeys(RaiseAll(mins, blocks))
    ensures Lookup(RaiseAll(mins, blocks), c) ==
      if HasKey(blocks, c) then Max(Lookup(mins, c), Lookup(blocks, c)) else Lookup(mins, c)
    ensures HasKey(RaiseAll(mins, blocks), c) <==> HasKey(mins, c) || HasKey(blocks, c)
    decreases |blocks|
  {
    if |blocks| > 0 {
      var b, rest := blocks[0], blocks[1..];
      var m := Max(Lookup(mins, b.color), b.count);
      StoreLookup(mins, b.color, m, c);
      assert DistinctKeys(rest);
      RaiseAllContents(Store(mins, b.color, m), rest, c);
      if b.color == c {
        assert !HasKey(rest, c) by {
          forall i | 0 <= i < |rest| ensures rest[i].color != c {
            assert rest[i] == blocks[i + 1];
          }
        }
      }
      if HasKey(blocks, c) && b.color != c {
        var i :| 0 <= i < |blocks| && blocks[i].color == c;
        assert rest[i - 1].color == c;
      }
      if HasKey(rest, c) {
        var i :| 0 <= i < |rest| && rest[i].color == c;
        assert blocks[i + 1].color == c;
      }
    }
  }

  /** `min_counts[c]` is the largest count of `c` over the grabs of the game, and never
      below the 0 a missing colour reads as, so a negative count only ever stores 0;
      its keys are the colours some grab draws. */
  lemma MinCountsIsMax(grabs: seq<seq<Draw>>, c: string)
    ensures DistinctKeys(MinCounts(grabs))
    ensures Lookup(MinCounts(grabs), c) >= 0
    ensures forall k :: 0 <= k < |grabs| ==> LastCount(grabs[k], c) <= Lookup(MinCounts(grabs), c)
    ensures Lookup(MinCounts(grabs), c) == 0 ||
      exists k :: 0 <= k < |grabs| && Lookup(MinCounts(grabs), c) == LastCount(grabs[k], c)
    ensures HasKey(MinCounts(grabs), c) <==> exists k :: 0 <= k < |grabs| && Drawn(grabs[k], c)
  {
    MinCountsAbove(grabs, c);
    MinCountsAttained(grabs, c);
    MinCountsKeys(grabs, c);
  }

  /** A colour drawn only with counts of 0 or less (`int("-3")` parses) is stored with
      the count 0, since `min_counts[color]` starts from the default 0. */
  lemma NonPositiveDrawStoresZero(grabs: seq<seq<Draw>>, c: string)
    requires forall k :: 0 <= k < |grabs| ==> LastCount(grabs[k], c) <= 0
    requires exists k :: 0 <= k < |grabs| && Drawn(grabs[k], c)
    ensures HasKey(MinCounts(grabs), c) && Lookup(MinCounts(grabs), c) == 0
  {
    MinCountsIsMax(grabs, c);
  }

  /** The last grab raises the minima by its own dictionary. */
  lemma MinCountsStep(grabs: seq<seq<Draw>>, c: string)
    requires |grabs| > 0
    requires DistinctKeys(MinCounts(grabs[..|grabs| - 1]))
    requires Lookup(MinCounts(grabs[..|grabs| - 1]), c) >= 0
    ensures var init, last := grabs[..|grabs| - 1], grabs[|grabs| - 1];
      && DistinctKeys(MinCounts(grabs))
      && Lookup(MinCounts(grabs), c) == Max(Lookup(MinCounts(init), c), LastCount(last, c))
      && (HasKey(MinCounts(grabs), c) <==> HasKey(MinCounts(init), c) || Drawn(last, c))
  {
    var init, last := grabs[..|grabs| - 1], grabs[|grabs| - 1];
    BlockDictContents(last, c);
    RaiseAllContents(MinCounts(init), BlockDict(last), c);
  }

  lemma {:induction false} MinCountsAbove(grabs: seq<seq<Draw>>, c: string)
    ensures DistinctKeys(MinCounts(grabs))
    ensures Lookup(MinCounts(grabs), c) >= 0
    ensures forall k :: 0 <= k < |grabs| ==> LastCount(grabs[k], c) <= Lookup(MinCounts(grabs), c)
  {
    if |grabs| > 0 {
      var init := grabs[..|grabs| - 1];
      MinCountsAbove(init, c);
      MinCountsStep(grabs, c);
      forall k | 0 <= k < |grabs| - 1 ensures LastCount(grabs[k], c) <= Lookup(MinCounts(grabs), c) {
        assert grabs[k] == init[k];
      }
    }
  }

  lemma {:induction false} MinCountsAttained(grabs: seq<seq<Draw>>, c: string)
    ensures Lookup(MinCounts(grabs), c) == 0 ||
      exists k :: 0 <= k < |grabs| && Lookup(MinCounts(grabs), c) == LastCount(grabs[k], c)
  {
    if |grabs| > 0 {
      var init, last := grabs[..|grabs| - 1], grabs[|grabs| - 1];
      MinCountsAttained(init, c);
      MinCountsAbove(init, c);
      MinCountsStep(grabs, c);
      var m := Lookup(MinCounts(grabs), c);
      if m != 0 && m != LastCount(last, c) {
        var k :| 0 <= k < |init| && Lookup(MinCounts(init), c) == LastCount(init[k], c);
        assert grabs[k] == init[k];
      }
    }
  }

  lemma {:induction false} MinCountsKeys(grabs: seq<seq<Draw>>, c: string)
    ensures HasKey(MinCounts(grabs), c) <==> exists k :: 0 <= k < |grabs| && Drawn(grabs[k], c)
  {
    if |grabs| > 0 {
      var init := grabs[..|grabs| - 1];
      MinCountsKeys(init, c);
      MinCountsAbove(init, c);
      MinCountsStep(grabs, c);
      if exists k :: 0 <= k < |grabs| && Drawn(grabs[k], c) {
        var k :| 0 <= k < |grabs| && Drawn(grabs[k], c);
        if k < |grabs| - 1 {
          assert grabs[k] == init[k];
        }
      }
      if exists k :: 0 <= k < |init| && Drawn(init[k], c) {
        var k :| 0 <= k < |init| && Drawn(init[k], c);
        assert grabs[k] == init[k];
      }
    }
  }

  /** Part one's `valid` and part two's maxima agree: every grab is valid exactly when
      the per-colour maximum is within each colour's limit. */
  lemma {:induction false} AllValidIffMaximaWithinLimits(grabs: seq<seq<Draw>>)
    ensures AllValid(grabs) <==> forall c :: Lookup(MinCounts(grabs), c) <= Limit(c)
  {
    if |grabs| == 0 {
      forall c ensures Lookup(MinCounts(grabs), c) <= Limit(c) {
      }
    } else {
      var init, last := grabs[..|grabs| - 1], grabs[|grabs| - 1];
      AllValidIffMaximaWithinLimits(init);
      ValidInputWithinLimits(BlockDict(last));
      MinCountsIsMax(init, "");
      forall c ensures Lookup(MinCounts(grabs), c) == Max(Lookup(MinCounts(init), c), Lookup(BlockDict(last), c)) {
        MinCountsIsMax(init, c);
        RaiseAllContents(MinCounts(init), BlockDict(last), c);
      }
    }
  }

  /** Part one scores a game's id exactly when every grab fits the bag; part two scores
      the product of the per-colour maxima over the colours the game draws. */
  lemma GameScore(id: int, grabs: seq<seq<Draw>>)
    ensures ParseLine(Game(id, grabs), false) ==
      if forall k :: 0 <= k < |grabs| ==> ValidInput(BlockDict(grabs[k])) then id else 0
    ensures ParseLine(Game(id, grabs), true) == Product(Counts(MinCounts(grabs)))
  {
    AllValidEach(grabs);
  }

  lemma {:induction false} AllValidEach(grabs: seq<seq<Draw>>)
    ensures AllValid(grabs) <==> forall k :: 0 <= k < |grabs| ==> ValidInput(BlockDict(grabs[k]))
  {
    if |grabs| > 0 {
      var init := grabs[..|grabs| - 1];
      AllValidEach(init);
      assert forall k :: 0 <= k < |init| ==> init[k] == grabs[k];
    }
  }

  /** The answer is the sum of the per-line scores. */
  lemma {:induction false} SolutionAppend(xs: seq<Line>, ys: seq<Line>, partTwo: bool)
    ensures Solution(xs + ys, partTwo) == Solution(xs, partTwo) + Solution(ys, partTwo)
    decreases |ys|
  {
    if |ys| == 0 {
      assert xs + ys == xs;
    } else {
      var ys' := ys[..|ys| - 1];
      assert (xs + ys)[..|xs + ys| - 1] == xs + ys';
      SolutionAppend(xs, ys', partTwo);
    }
  }
}
