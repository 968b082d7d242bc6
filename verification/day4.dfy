/** day4/day4.py: a scratchcard scores by how many of its numbers are winning numbers:
    nothing for no match, then 1, 2, 4, 8, ... doubling with each further match. */
module Scratchcards {
  import opened Common

  /** `ScratchCard`, after the numbers are converted. */
  datatype Card = Card(winning: set<int>, numbers: seq<int>, id: int)

  /** The matches as the puzzle counts them: the positions of the card's numbers that
      hold a winning number (a repeated number counts each time). */
  function MatchPositions(card: Card): set<nat>
  {
    set i: nat | i < |card.numbers| && card.numbers[i] in card.winning
  }

  /** The matches among the first `i` numbers. */
  function PrefixMatches(card: Card, i: nat): set<nat>
    requires i <= |card.numbers|
  {
    if i == 0 then {}
    else PrefixMatches(card, i - 1) + if card.numbers[i - 1] in card.winning then {i - 1} else {}
  }

  lemma {:induction false} PrefixMatchesMembers(card: Card, i: nat, k: nat)
    requires i <= |card.numbers|
    ensures k in PrefixMatches(card, i) <==> k < i && card.numbers[k] in card.winning
  {
    if i > 0 {
      PrefixMatchesMembers(card, i - 1, k);
    }
  }

  /** Reading one more number adds its position exactly when it is a winning number. */
  lemma PrefixMatchesStep(card: Card, i: nat)
    requires i < |card.numbers|
    ensures |PrefixMatches(card, i + 1)| ==
      |PrefixMatches(card, i)| + if card.numbers[i] in card.winning then 1 else 0
  {
    PrefixMatchesMembers(card, i, i);
  }

  /** All the matches are the matches among all the numbers. */
  lemma AllPrefixMatches(card: Card)
    ensures MatchPositions(card) == PrefixMatches(card, |card.numbers|)
  {
    forall k: nat ensures k in MatchPositions(card) <==> k in PrefixMatches(card, |card.numbers|) {
      PrefixMatchesMembers(card, |card.numbers|, k);
    }
  }

  lemma {:induction false} PrefixMatchesBound(card: Card, i: nat)
    requires i <= |card.numbers|
    ensures |PrefixMatches(card, i)| <= i
  {
    if i > 0 {
      PrefixMatchesBound(card, i - 1);
      PrefixMatchesStep(card, i - 1);
    }
  }

  /** No card has more matches than numbers. */
  lemma IndexSetBound(card: Card)
    ensures |MatchPositions(card)| <= |card.numbers|
  {
    AllPrefixMatches(card);
    PrefixMatchesBound(card, |card.numbers|);
  }

  /** The number of winning numbers among the first `i`, as the loop counts them. */
  function CountPrefix(card: Card, i: nat): nat
    requires i <= |card.numbers|
  {
    if i == 0 then 0 else CountPrefix(card, i - 1) + if card.numbers[i - 1] in card.winning then 1 else 0
  }

  /** The running count is the number of match positions seen so far. */
  lemma {:induction false} CountPrefixIsMatches(card: Card, i: nat)
    requires i <= |card.numbers|
    ensures CountPrefix(card, i) == |PrefixMatches(card, i)|
  {
    if i > 0 {
      CountPrefixIsMatches(card, i - 1);
      PrefixMatchesStep(card, i - 1);
    }
  }

  /** The counting loop of `get_card_value`. */
  method CountMatches(card: Card) returns (matching: nat)
    ensures matching == |MatchPositions(card)|
    ensures matching <= |card.numbers|
  {
    matching := 0;
    var i := 0;
    while i < |card.numbers|
      invariant 0 <= i <= |card.numbers|
      invariant matching == CountPrefix(card, i)
    {
      if card.numbers[i] in card.winning {
        matching := matching + 1;
      }
      i := i + 1;
    }
    CountPrefixIsMatches(card, i);
    AllPrefixMatches(card);
    IndexSetBound(card);
  }

  function Pow2(n: nat): (p: nat)
    ensures p >= 1
  {
    if n == 0 then 1 else 2 * Pow2(n - 1)
  }

  /** The scoring tail of `get_card_value`: up to one match scores the match count,
      more score `2 ** (matching - 1)`. */
  function Score(matching: nat): nat
  {
    if matching <= 1 then matching else Pow2(matching - 1)
  }

  /** The score is 0 without a match and `2^(m-1)` with `m` matches: the early return
      for one match agrees with the power. */
  lemma ScoreIsPower(matching: nat)
    ensures Score(matching) == if matching == 0 then 0 else Pow2(matching - 1)
  {
  }

  lemma {:induction false} Pow2Monotone(a: nat, b: nat)
    requires a <= b
    ensures Pow2(a) <= Pow2(b)
    decreases b
  {
    if a < b {
      Pow2Monotone(a, b - 1);
    }
  }

  /** More matches never score less, and a card of `n` numbers scores at most
      `2^(n-1)`. */
  lemma ScoreMonotone(m1: nat, m2: nat)
    requires m1 <= m2
    ensures Score(m1) <= Score(m2)
  {
    if m1 >= 2 {
      Pow2Monotone(m1 - 1, m2 - 1);
    }
  }

  lemma ScoreBound(card: Card)
    requires |card.numbers| > 0
    ensures Score(|MatchPositions(card)|) <= Pow2(|card.numbers| - 1)
  {
    IndexSetBound(card);
    var m := |MatchPositions(card)|;
    ScoreMonotone(m, |card.numbers|);
  }

  /** `get_card_value` on a parsed card. */
  method CardValue(card: Card) returns (value: nat)
    ensures value == Score(|MatchPositions(card)|)
    ensures value == 0 <==> MatchPositions(card) == {}
  {
    var matching := CountMatches(card);
    if matching <= 1 {
      return matching;
    }
    return Pow2(matching - 1);
  }

  /** The tokens `parse_line` keeps: the pieces of a space split that are not empty. */
  function Tokens(s: string): (ts: seq<string>)
  {
    NonEmpty(Split(s, ' '))
  }

  /** The comprehension's filter: only non-empty pieces are kept, and every non-empty
      piece is kept. */
  function NonEmpty(parts: seq<string>): (kept: seq<string>)
    ensures forall i :: 0 <= i < |kept| ==> kept[i] != "" && kept[i] in parts
    ensures forall i :: 0 <= i < |parts| && parts[i] != "" ==> parts[i] in kept
  {
    if |parts| == 0 then []
    else (if parts[0] == "" then [] else [parts[0]]) + NonEmpty(parts[1..])
  }

  /** The filter keeps every non-empty piece as often as it occurs and drops every
      empty one. */
  lemma {:induction false} NonEmptyCounts(parts: seq<string>)
    ensures multiset(NonEmpty(parts)) == multiset(parts)["" := 0]
  {
    if |parts| > 0 {
      NonEmptyCounts(parts[1..]);
      assert parts == [parts[0]] + parts[1..];
    }
  }

  /** Where the kept pieces come from: the positions of the non-empty pieces. */
  function KeptIndices(parts: seq<string>): seq<nat>
  {
    if |parts| == 0 then []
    else (if parts[0] == "" then [] else [0]) + Shifted(KeptIndices(parts[1..]))
  }

  function Shifted(idx: seq<nat>): (r: seq<nat>)
    ensures |r| == |idx| && forall k :: 0 <= k < |idx| ==> r[k] == idx[k] + 1
  {
    seq(|idx|, k requires 0 <= k < |idx| => idx[k] + 1)
  }

  /** The kept pieces are `parts` read at strictly increasing positions, so the filter
      keeps the order of the pieces as well as their repeats. */
  lemma {:induction false} KeptInOrder(parts: seq<string>)
    ensures |KeptIndices(parts)| == |NonEmpty(parts)|
    ensures forall k :: 0 <= k < |KeptIndices(parts)| ==>
      KeptIndices(parts)[k] < |parts| && NonEmpty(parts)[k] == parts[KeptIndices(parts)[k]]
    ensures forall k, l :: 0 <= k < l < |KeptIndices(parts)| ==> KeptIndices(parts)[k] < KeptIndices(parts)[l]
  {
    KeptPositions(parts);
    KeptIncreasing(parts);
  }

  lemma {:induction false} KeptPositions(parts: seq<string>)
    ensures |KeptIndices(parts)| == |NonEmpty(parts)|
    ensures forall k :: 0 <= k < |KeptIndices(parts)| ==>
      KeptIndices(parts)[k] < |parts| && NonEmpty(parts)[k] == parts[KeptIndices(parts)[k]]
  {
    if |parts| > 0 {
      var tail := parts[1..];
      KeptPositions(tail);
      var rest, restKept := KeptIndices(tail), NonEmpty(tail);
      var idx, kept := KeptIndices(parts), NonEmpty(parts);
      var d := if parts[0] == "" then 0 else 1;
      var head, headKept := if d == 1 then [0] else [], if d == 1 then [parts[0]] else [];
      assert idx == head + Shifted(rest) && kept == headKept + restKept;
      forall k | 0 <= k < |idx|
        ensures idx[k] < |parts| && kept[k] == parts[idx[k]]
      {
        if k >= d {
          assert idx[k] == rest[k - d] + 1 && kept[k] == restKept[k - d];
          assert tail[rest[k - d]] == parts[rest[k - d] + 1];
        }
      }
    }
  }

  lemma {:induction false} KeptIncreasing(parts: seq<string>)
    ensures forall k, l :: 0 <= k < l < |KeptIndices(parts)| ==> KeptIndices(parts)[k] < KeptIndices(parts)[l]
  {
    if |parts| > 0 {
      KeptIncreasing(parts[1..]);
      var rest := KeptIndices(parts[1..]);
      var idx := KeptIndices(parts);
      var d := if parts[0] == "" then 0 else 1;
      assert idx == (if d == 1 then [0] else []) + Shifted(rest);
      forall k, l | 0 <= k < l < |idx| ensures idx[k] < idx[l] {
        assert idx[l] == rest[l - d] + 1;
        if k >= d {
          assert idx[k] == rest[k - d] + 1;
        }
      }
    }
  }

  lemma {:induction false} NonEmptyAppend(xs: seq<string>, ys: seq<string>)
    ensures NonEmpty(xs + ys) == NonEmpty(xs) + NonEmpty(ys)
  {
    if |xs| > 0 {
      assert (xs + ys)[0] == xs[0] && (xs + ys)[1..] == xs[1..] + ys;
      NonEmptyAppend(xs[1..], ys);
      var h := if xs[0] == "" then [] else [xs[0]];
      assert NonEmpty(xs + ys) == h + NonEmpty(xs[1..] + ys);
      assert NonEmpty(xs) == h + NonEmpty(xs[1..]);
    } else {
      assert xs + ys == ys;
    }
  }

  /** Two spaces in a row tokenise like one: the empty piece between them is dropped. */
  lemma DoubleSpace(x: string, y: string)
    ensures Tokens(x + "  " + y) == Tokens(x + " " + y)
  {
    var a, b := Split(x, ' '), Split(y, ' ');
    assert Split(x + "  " + y, ' ') == a + ([""] + b) by {
      assert x + "  " + y == x + [' '] + (" " + y);
      SplitAtSeparator(x, " " + y, ' ');
      assert Split(" " + y, ' ') == [""] + b by {
        assert " " + y == "" + [' '] + y;
        SplitAtSeparator("", y, ' ');
      }
    }
    assert Split(x + " " + y, ' ') == a + b by {
      assert x + " " + y == x + [' '] + y;
      SplitAtSeparator(x, y, ' ');
    }
    assert NonEmpty(a + ([""] + b)) == NonEmpty(a) + NonEmpty(b) by {
      NonEmptyAppend(a, [""] + b);
      NonEmptyAppend([""], b);
    }
    NonEmptyAppend(a, b);
  }

  /** `solution`: the card values summed. */
  function Total(cards: seq<Card>): nat
  {
    if |cards| == 0 then 0 else Total(cards[..|cards| - 1]) + Score(|MatchPositions(cards[|cards| - 1])|)
  }

  /** The answer adds up over blocks of cards. */
  lemma {:induction false} TotalAppend(xs: seq<Card>, ys: seq<Card>)
    ensures Total(xs + ys) == Total(xs) + Total(ys)
    decreases |ys|
  {
    if |ys| == 0 {
      assert xs + ys == xs;
    } else {
      var ys' := ys[..|ys| - 1];
      assert (xs + ys)[..|xs + ys| - 1] == xs + ys';
      TotalAppend(xs, ys');
    }
  }

  method Solution(cards: seq<Card>) returns (total: int)
    ensures total == Total(cards)
  {
    total := 0;
    var i := 0;
    while i < |cards|
      invariant 0 <= i <= |cards|
      invariant total == Total(cards[..i])
    {
      var value := CardValue(cards[i]);
      assert cards[..i + 1][..i] == cards[..i];
      total := total + value;
      i := i + 1;
    }
    assert cards[..i] == cards;
  }
}
