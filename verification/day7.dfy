/** day7/day7.py: Camel Cards. A hand's type comes from how often each card occurs (in
    part two a 'J' is a joker that joins whichever card helps most); hands are ordered by
    type, then card by card; the answer sums rank times bid over the sorted hands. */
module CamelCards {
  import opened Common

  /** `HandType`, with its enum value as `Strength`. */
  datatype HandType = HighCard | OnePair | TwoPair | ThreeOfAKind | FullHouse | FourOfAKind | FiveOfAKind

  function Strength(t: HandType): (s: nat)
    ensures 1 <= s <= 7
  {
    match t
    case HighCard => 1
    case OnePair => 2
    case TwoPair => 3
    case ThreeOfAKind => 4
    case FullHouse => 5
    case FourOfAKind => 6
    case FiveOfAKind => 7
  }

  /** The strengths tell the types apart, so comparing strengths is comparing types. */
  lemma StrengthInjective(a: HandType, b: HandType)
    ensures Strength(a) == Strength(b) <==> a == b
  {
  }

  // ---------------------------------------------------------------------------------
  // Card values

  /** The keys of `CARD_VALUES_PART1` and `CARD_VALUES_PART2`. */
  predicate IsCard(c: char)
  {
    c in "23456789TJQKA"
  }

  /** The cards from weakest to strongest under each table. */
  const PartOneOrder: string := "23456789TJQKA"
  const PartTwoOrder: string := "J23456789TQKA"

  /** `CARD_VALUES[c]` for the active table. */
  function CardValue(c: char, partTwo: bool): (v: nat)
    requires IsCard(c)
    ensures if partTwo then 1 <= v <= 13 else 2 <= v <= 14
  {
    if c == 'T' then 10
    else if c == 'J' then (if partTwo then 1 else 11)
    else if c == 'Q' then (if partTwo then 11 else 12)
    else if c == 'K' then (if partTwo then 12 else 13)
    else if c == 'A' then (if partTwo then 13 else 14)
    else (c as int) - ('0' as int)
  }

  /** Part one values the cards 2 to 14 in the order `23456789TJQKA`; part two values
      them 1 to 13 in the order `J23456789TQKA`. */
  lemma CardTables()
    ensures forall i :: 0 <= i < |PartOneOrder| ==>
      IsCard(PartOneOrder[i]) && CardValue(PartOneOrder[i], false) == i + 2
    ensures forall i :: 0 <= i < |PartTwoOrder| ==>
      IsCard(PartTwoOrder[i]) && CardValue(PartTwoOrder[i], true) == i + 1
  {
  }

  /** Different cards have different values under both tables. */
  lemma CardValueInjective(c: char, d: char, partTwo: bool)
    requires IsCard(c) && IsCard(d)
    ensures CardValue(c, partTwo) == CardValue(d, partTwo) <==> c == d
  {
  }

  /** In part two the joker is the weakest card. */
  lemma JokerIsLowest(c: char)
    requires IsCard(c) && c != 'J'
    ensures CardValue('J', true) < CardValue(c, true)
  {
  }

  // ---------------------------------------------------------------------------------
  // Counting the cards

  /** One entry of `Counter(cards)`. */
  datatype Tally = Tally(card: char, count: nat)

  /** The cards listed in a tally. */
  function Cards(t: seq<Tally>): set<char>
  {
    if |t| == 0 then {} else {t[0].card} + Cards(t[1..])
  }

  predicate DistinctCards(t: seq<Tally>)
  {
    |t| > 0 ==> t[0].card !in Cards(t[1..]) && DistinctCards(t[1..])
  }

  predicate PositiveCounts(t: seq<Tally>)
  {
    forall i :: 0 <= i < |t| ==> t[i].count >= 1
  }

  /** `counter[c]`: the count of `c`, 0 when it is not listed. */
  function CountOf(t: seq<Tally>, c: char): nat
  {
    if |t| == 0 then 0 else if t[0].card == c then t[0].count else CountOf(t[1..], c)
  }

  /** Counting one more `c`. */
  function Bump(t: seq<Tally>, c: char): (r: seq<Tally>)
    ensures Cards(r) == Cards(t) + {c}
    ensures DistinctCards(t) ==> DistinctCards(r)
    ensures PositiveCounts(t) ==> PositiveCounts(r)
    ensures forall d :: CountOf(r, d) == CountOf(t, d) + if d == c then 1 else 0
  {
    if |t| == 0 then [Tally(c, 1)]
    else if t[0].card == c then [Tally(c, t[0].count + 1)] + t[1..]
    else [t[0]] + Bump(t[1..], c)
  }

  /** `Counter(cards)`: each card that occurs, once, with the number of times it
      occurs. */
  function CountCards(cards: string): (t: seq<Tally>)
    ensures DistinctCards(t) && PositiveCounts(t)
    ensures forall c :: c in Cards(t) <==> c in cards
    ensures forall c :: CountOf(t, c) == multiset(cards)[c]
  {
    if |cards| == 0 then []
    else
      var init := cards[..|cards| - 1];
      assert cards == init + [cards[|cards| - 1]];
      Bump(CountCards(init), cards[|cards| - 1])
  }

  /** The counts the classifying loop looks at: every entry but the joker's in part
      two (the loop `continue`s past it). */
  function Nums(t: seq<Tally>, partTwo: bool): seq<nat>
  {
    if |t| == 0 then []
    else (if partTwo && t[0].card == 'J' then [] else [t[0].count]) + Nums(t[1..], partTwo)
  }

  /** The cards whose counts `Nums` keeps. */
  function KeptCards(t: seq<Tally>, partTwo: bool): set<char>
  {
    if |t| == 0 then {}
    else (if partTwo && t[0].card == 'J' then {} else {t[0].card}) + KeptCards(t[1..], partTwo)
  }

  lemma {:induction false} KeptCardsMembers(t: seq<Tally>, partTwo: bool, c: char)
    ensures c in KeptCards(t, partTwo) <==> c in Cards(t) && !(partTwo && c == 'J')
  {
    if |t| > 0 {
      KeptCardsMembers(t[1..], partTwo, c);
    }
  }

  lemma SumFront(s: seq<int>)
    requires |s| > 0
    ensures Sum(s) == s[0] + Sum(s[1..])
  {
    assert s == [s[0]] + s[1..];
    SumAppend([s[0]], s[1..]);
    assert Sum([s[0]]) == Sum([]) + s[0];
  }

  /** One count per kept card; the kept counts and the jokers add up to the whole
      tally. */
  lemma NumsShape(t: seq<Tally>, partTwo: bool)
    requires DistinctCards(t) && PositiveCounts(t)
    ensures |Nums(t, partTwo)| == |KeptCards(t, partTwo)|
    ensures forall i :: 0 <= i < |Nums(t, partTwo)| ==> Nums(t, partTwo)[i] >= 1
    ensures Sum(Nums(t, partTwo)) + (if partTwo then CountOf(t, 'J') else 0) == Sum(Nums(t, false))
  {
    NumsLength(t, partTwo);
    NumsPositive(t, partTwo);
    NumsSum(t, partTwo);
  }

  lemma {:induction false} NumsLength(t: seq<Tally>, partTwo: bool)
    requires DistinctCards(t)
    ensures |Nums(t, partTwo)| == |KeptCards(t, partTwo)|
  {
    if |t| > 0 {
      var rest := t[1..];
      NumsLength(rest, partTwo);
      KeptCardsMembers(rest, partTwo, t[0].card);
      if !(partTwo && t[0].card == 'J') {
        assert KeptCards(t, partTwo) == {t[0].card} + KeptCards(rest, partTwo);
        assert t[0].card !in KeptCards(rest, partTwo);
      }
    }
  }

  lemma {:induction false} NumsPositive(t: seq<Tally>, partTwo: bool)
    requires PositiveCounts(t)
    ensures forall i :: 0 <= i < |Nums(t, partTwo)| ==> Nums(t, partTwo)[i] >= 1
  {
    if |t| > 0 {
      var rest := t[1..];
      assert PositiveCounts(rest) by {
        forall i | 0 <= i < |rest| ensures rest[i].count >= 1 {
          assert rest[i] == t[i + 1];
        }
      }
      NumsPositive(rest, partTwo);
    }
  }

  lemma {:induction false} NumsSum(t: seq<Tally>, partTwo: bool)
    requires DistinctCards(t)
    ensures Sum(Nums(t, partTwo)) + (if partTwo then CountOf(t, 'J') else 0) == Sum(Nums(t, false))
  {
    if |t| > 0 {
      var rest := t[1..];
      NumsSum(rest, partTwo);
      var head: seq<nat> := if partTwo && t[0].card == 'J' then [] else [t[0].count];
      assert Sum(Nums(t, partTwo)) == Sum(head) + Sum(Nums(rest, partTwo)) by {
        assert Nums(t, partTwo) == head + Nums(rest, partTwo);
        SumAppend(head, Nums(rest, partTwo));
      }
      assert Sum(Nums(t, false)) == t[0].count + Sum(Nums(rest, false)) by {
        assert Nums(t, false) == [t[0].count] + Nums(rest, false);
        SumFront(Nums(t, false));
        assert Nums(t, false)[1..] == Nums(rest, false);
      }
      if partTwo && t[0].card == 'J' {
        assert CountOf(rest, 'J') == 0 by {
          NotListedCountsZero(rest, 'J');
        }
      } else {
        assert Sum(head) == t[0].count by {
          assert Sum(head) == Sum(head[..0]) + head[0];
        }
      }
    }
  }

  lemma {:induction false} NotListedCountsZero(t: seq<Tally>, c: char)
    requires c !in Cards(t)
    ensures CountOf(t, c) == 0
  {
    if |t| > 0 {
      NotListedCountsZero(t[1..], c);
    }
  }

  /** All the counts together count every card. */
  lemma {:induction false} CountsAddUp(cards: string)
    ensures Sum(Nums(CountCards(cards), false)) == |cards|
  {
    if |cards| > 0 {
      var init := cards[..|cards| - 1];
      CountsAddUp(init);
      BumpAddsOne(CountCards(init), cards[|cards| - 1]);
    }
  }

  lemma {:induction false} BumpAddsOne(t: seq<Tally>, c: char)
    ensures Sum(Nums(Bump(t, c), false)) == Sum(Nums(t, false)) + 1
  {
    if |t| == 0 {
      assert Sum([1]) == Sum([]) + 1;
    } else {
      var r := Bump(t, c);
      SumFront(Nums(r, false));
      SumFront(Nums(t, false));
      assert Nums(r, false)[1..] == Nums(r[1..], false);
      assert Nums(t, false)[1..] == Nums(t[1..], false);
      if t[0].card != c {
        BumpAddsOne(t[1..], c);
        assert r[1..] == Bump(t[1..], c);
      } else {
        assert r[1..] == t[1..];
      }
    }
  }

  /** Every kept count is the count of some kept card, at most `most` when every kept
      card's count is. */
  lemma {:induction false} NumsBelow(t: seq<Tally>, partTwo: bool, most: nat)
    requires DistinctCards(t)
    requires forall c :: c in KeptCards(t, partTwo) ==> CountOf(t, c) <= most
    ensures forall i :: 0 <= i < |Nums(t, partTwo)| ==> Nums(t, partTwo)[i] <= most
  {
    if |t| > 0 {
      var rest := t[1..];
      forall c | c in KeptCards(rest, partTwo) ensures CountOf(rest, c) <= most {
        KeptCardsMembers(rest, partTwo, c);
        assert c != t[0].card;
        assert c in KeptCards(t, partTwo);
      }
      NumsBelow(rest, partTwo, most);
      var head: seq<nat> := if partTwo && t[0].card == 'J' then [] else [t[0].count];
      assert Nums(t, partTwo) == head + Nums(rest, partTwo);
      if |head| > 0 {
        assert t[0].card in KeptCards(t, partTwo);
        assert head[0] == CountOf(t, t[0].card);
      }
      forall i | 0 <= i < |Nums(t, partTwo)| ensures Nums(t, partTwo)[i] <= most {
        if i >= |head| {
          assert Nums(t, partTwo)[i] == Nums(rest, partTwo)[i - |head|];
        }
      }
    }
  }

  /** The count of every kept card is among the kept counts. */
  lemma {:induction false} NumsListCount(t: seq<Tally>, partTwo: bool, c: char)
    requires DistinctCards(t)
    requires c in KeptCards(t, partTwo)
    ensures CountOf(t, c) in Nums(t, partTwo)
  {
    var rest := t[1..];
    var head: seq<nat> := if partTwo && t[0].card == 'J' then [] else [t[0].count];
    assert Nums(t, partTwo) == head + Nums(rest, partTwo);
    if t[0].card != c {
      assert c in KeptCards(rest, partTwo);
      NumsListCount(rest, partTwo, c);
      assert CountOf(t, c) == CountOf(rest, c);
    } else {
      KeptCardsMembers(t, partTwo, c);
      assert head == [t[0].count];
      assert Nums(t, partTwo)[0] == CountOf(t, c);
    }
  }

  // ---------------------------------------------------------------------------------
  // Sorting the counts

  predicate SortedDesc(s: seq<nat>)
  {
    forall i, j :: 0 <= i < j < |s| ==> s[i] >= s[j]
  }

  function Insert(x: nat, s: seq<nat>): (r: seq<nat>)
    requires SortedDesc(s)
    ensures SortedDesc(r)
    ensures multiset(r) == multiset(s) + multiset{x}
    ensures |r| > 0 && (r[0] == x || (|s| > 0 && r[0] == s[0]))
  {
    if |s| == 0 || x >= s[0] then [x] + s
    else
      var rest := Insert(x, s[1..]);
      assert s == [s[0]] + s[1..];
      ConsSorted(s[0], rest);
      [s[0]] + rest
  }

  lemma ConsSorted(x: nat, s: seq<nat>)
    requires SortedDesc(s) && (|s| == 0 || x >= s[0])
    ensures SortedDesc([x] + s)
  {
    var r := [x] + s;
    forall i, j | 0 <= i < j < |r| ensures r[i] >= r[j] {
      if i > 0 {
        assert r[i] == s[i - 1] && r[j] == s[j - 1];
      } else {
        assert r[j] == s[j - 1] && s[0] >= s[j - 1];
      }
    }
  }

  /** `sorted(..., reverse=True)` on the counts. */
  function SortDesc(s: seq<nat>): (r: seq<nat>)
    ensures SortedDesc(r)
    ensures multiset(r) == multiset(s)
  {
    if |s| == 0 then [] else
      assert s == [s[0]] + s[1..];
      Insert(s[0], SortDesc(s[1..]))
  }

  /** Sorting keeps the sum. */
  lemma {:induction false} SortDescSum(s: seq<nat>)
    ensures Sum(SortDesc(s)) == Sum(s)
  {
    if |s| > 0 {
      SortDescSum(s[1..]);
      InsertSum(s[0], SortDesc(s[1..]));
      SumFront(s);
    }
  }

  lemma {:induction false} InsertSum(x: nat, s: seq<nat>)
    requires SortedDesc(s)
    ensures Sum(Insert(x, s)) == x + Sum(s)
  {
    var r := Insert(x, s);
    SumFront(r);
    if |s| == 0 || x >= s[0] {
      assert r[1..] == s;
    } else {
      assert r[1..] == Insert(x, s[1..]);
      InsertSum(x, s[1..]);
      SumFront(s);
    }
  }

  // ---------------------------------------------------------------------------------
  // Classifying a hand

  /** The loop of `_calculate_hand_type` over the sorted counts, starting from `found`:
      five or four of a card end the search; a three is remembered; a pair turns a
      three into a full house, a pair into two pairs, anything else into one pair; a
      single card ends the search. */
  function Scan(counts: seq<nat>, found: HandType): HandType
  {
    if |counts| == 0 then found
    else if counts[0] == 5 then FiveOfAKind
    else if counts[0] == 4 then FourOfAKind
    else if counts[0] == 3 then Scan(counts[1..], ThreeOfAKind)
    else if counts[0] == 2 then
      Scan(counts[1..], if found == ThreeOfAKind then FullHouse else if found == OnePair then TwoPair else OnePair)
    else found
  }

  /** The joker block of `_calculate_hand_type`, for `jokers > 0`. */
  function Upgrade(base: HandType, jokers: nat): HandType
  {
    if jokers >= 4 then FiveOfAKind
    else if jokers == 3 then (if base == OnePair then FiveOfAKind else FourOfAKind)
    else if jokers == 2 then
      (if base == OnePair then FourOfAKind else if base == ThreeOfAKind then FiveOfAKind else ThreeOfAKind)
    else if base == OnePair then ThreeOfAKind
    else if base == ThreeOfAKind then FourOfAKind
    else if base == FourOfAKind then FiveOfAKind
    else if base == TwoPair then FullHouse
    else OnePair
  }

  /** The jokers are applied only when there are some. */
  function Finish(base: HandType, jokers: nat): HandType
  {
    if jokers > 0 then Upgrade(base, jokers) else base
  }

  /** The sorted counts the loop walks. */
  function SortedCounts(cards: string, partTwo: bool): seq<nat>
  {
    SortDesc(Nums(CountCards(cards), partTwo))
  }

  /** The type of the non-joker cards (all cards in part one). */
  function BaseType(cards: string, partTwo: bool): HandType
  {
    Scan(SortedCounts(cards, partTwo), HighCard)
  }

  /** `num_jokers` as far as it is used: it only matters in part two. */
  function Jokers(cards: string, partTwo: bool): nat
  {
    if partTwo then CountOf(CountCards(cards), 'J') else 0
  }

  /** `Hand.hand_type` as `_calculate_hand_type` leaves it. */
  function HandTypeOf(cards: string, partTwo: bool): HandType
  {
    Finish(BaseType(cards, partTwo), Jokers(cards, partTwo))
  }

  /** `_calculate_hand_type` with its loop. */
  method CalculateHandType(cards: string, partTwo: bool) returns (handType: HandType)
    ensures handType == HandTypeOf(cards, partTwo)
    ensures |cards| == 5 ==> handType == Reference(cards, partTwo)
  {
    var tallies := CountCards(cards);
    var numJokers := CountOf(tallies, 'J');
    var counts := SortDesc(Nums(tallies, partTwo));
    handType := HighCard;
    var i := 0;
    while i < |counts|
      invariant 0 <= i <= |counts|
      invariant Scan(counts[i..], handType) == Scan(counts, HighCard)
    {
      var num := counts[i];
      assert counts[i..][1..] == counts[i + 1..];
      if num == 5 {
        handType := FiveOfAKind;
        break;
      } else if num == 4 {
        handType := FourOfAKind;
        break;
      } else if num == 3 {
        handType := ThreeOfAKind;
      } else if num == 2 {
        if handType == ThreeOfAKind {
          handType := FullHouse;
        } else if handType == OnePair {
          handType := TwoPair;
        } else {
          handType := OnePair;
        }
      } else {
        break;
      }
      i := i + 1;
    }
    if numJokers > 0 && partTwo {
      handType := Upgrade(handType, numJokers);
    }
    if |cards| == 5 {
      HandTypeMatchesReference(cards, partTwo);
    }
  }

  // ---------------------------------------------------------------------------------
  // The reference classification

  /** The cards that are not jokers (all of them in part one). */
  function KeptSet(cards: string, partTwo: bool): set<char>
  {
    set c | c in cards && !(partTwo && c == 'J')
  }

  /** The largest number of copies of one card of `s` in `m`, 0 for no card. */
  ghost function MaxCopies(m: multiset<char>, s: set<char>): (most: nat)
    ensures forall c :: c in s ==> m[c] <= most
    ensures s == {} ==> most == 0
    ensures s != {} ==> exists c :: c in s && m[c] == most
    decreases s
  {
    if s == {} then 0
    else
      var c :| c in s;
      var rest := MaxCopies(m, s - {c});
      if m[c] >= rest then m[c] else rest
  }

  /** The type of a five-card hand from `distinct` different non-joker cards whose most
      frequent card, with all the jokers added to it, occurs `most` times. */
  function Classify(distinct: nat, most: nat): HandType
  {
    if most >= 5 then FiveOfAKind
    else if most == 4 then FourOfAKind
    else if most == 3 then (if distinct == 2 then FullHouse else ThreeOfAKind)
    else if most == 2 then (if distinct == 3 then TwoPair else OnePair)
    else HighCard
  }

  /** The puzzle's definition of a hand's type: the jokers join the most frequent other
      card. It depends on nothing but which cards the hand holds and how often. */
  ghost function Reference(cards: string, partTwo: bool): HandType
  {
    var m := multiset(cards);
    var jokers := if partTwo then m['J'] else 0;
    Classify(|KeptSet(cards, partTwo)|, MaxCopies(m, KeptSet(cards, partTwo)) + jokers)
  }

  predicate Positive(s: seq<nat>)
  {
    forall i :: 0 <= i < |s| ==> s[i] >= 1
  }

  function Head(s: seq<nat>): nat
  {
    if |s| == 0 then 0 else s[0]
  }

  lemma {:induction false} SumAtLeastLength(s: seq<nat>)
    requires Positive(s)
    ensures Sum(s) >= |s|
  {
    if |s| > 0 {
      SumAtLeastLength(s[..|s| - 1]);
    }
  }

  lemma {:induction false} SumOfOnes(s: seq<nat>)
    requires forall i :: 0 <= i < |s| ==> s[i] == 1
    ensures Sum(s) == |s|
  {
    if |s| > 0 {
      SumOfOnes(s[..|s| - 1]);
    }
  }

  /** The loop and the joker block classify every sorted list of counts of five cards
      as the reference does, and jokers always improve on the type of the other cards. */
  lemma ShapeClassifies(s: seq<nat>, j: nat)
    requires SortedDesc(s) && Positive(s) && Sum(s) + j == 5
    ensures Finish(Scan(s, HighCard), j) == Classify(|s|, Head(s) + j)
    ensures j > 0 ==> Strength(Finish(Scan(s, HighCard), j)) > Strength(Scan(s, HighCard))
  {
    if |s| > 0 {
      SumFront(s);
      SumAtLeastLength(s[1..]);
      if s[0] == 1 {
        SumOfOnes(s);
      } else if s[0] == 2 {
        ShapeHeadTwo(s, j);
      } else if s[0] == 3 {
        ShapeHeadThree(s, j);
      }
    }
  }

  /** The case of a pair as the most frequent card. */
  lemma ShapeHeadTwo(s: seq<nat>, j: nat)
    requires SortedDesc(s) && Positive(s) && Sum(s) + j == 5
    requires |s| > 0 && s[0] == 2
    ensures Finish(Scan(s, HighCard), j) == Classify(|s|, Head(s) + j)
    ensures j > 0 ==> Strength(Finish(Scan(s, HighCard), j)) > Strength(Scan(s, HighCard))
  {
    var t := s[1..];
    SumFront(s);
    assert forall i :: 0 <= i < |t| ==> 1 <= t[i] <= 2;
    assert Scan(s, HighCard) == Scan(t, OnePair);
    if |t| > 0 && t[0] == 1 {
      SumOfOnes(t);
    } else if |t| > 0 {
      var u := t[1..];
      SumFront(t);
      SumAtLeastLength(u);
      assert Scan(t, OnePair) == Scan(u, TwoPair);
      if |u| > 0 {
        SumFront(u);
        SumAtLeastLength(u[1..]);
        assert u[0] == 1;
      }
    }
  }

  /** The case of three of a card as the most frequent. */
  lemma ShapeHeadThree(s: seq<nat>, j: nat)
    requires SortedDesc(s) && Positive(s) && Sum(s) + j == 5
    requires |s| > 0 && s[0] == 3
    ensures Finish(Scan(s, HighCard), j) == Classify(|s|, Head(s) + j)
    ensures j > 0 ==> Strength(Finish(Scan(s, HighCard), j)) > Strength(Scan(s, HighCard))
  {
    var t := s[1..];
    SumFront(s);
    SumAtLeastLength(t);
    assert forall i :: 0 <= i < |t| ==> 1 <= t[i] <= 3;
    assert Scan(s, HighCard) == Scan(t, ThreeOfAKind);
    if |t| > 0 && t[0] == 1 {
      SumOfOnes(t);
    } else if |t| > 0 {
      var u := t[1..];
      SumFront(t);
      SumAtLeastLength(u);
      assert Scan(t, ThreeOfAKind) == Scan(u, FullHouse);
    }
  }

  /** The count shapes of a five-card hand without jokers, as the loop classifies them:
      5, 4+1, 3+2, 3+1+1, 2+2+1, 2+1+1+1 and 1+1+1+1+1. */
  lemma CountShapes()
    ensures Scan([5], HighCard) == FiveOfAKind
    ensures Scan([4, 1], HighCard) == FourOfAKind
    ensures Scan([3, 2], HighCard) == FullHouse
    ensures Scan([3, 1, 1], HighCard) == ThreeOfAKind
    ensures Scan([2, 2, 1], HighCard) == TwoPair
    ensures Scan([2, 1, 1, 1], HighCard) == OnePair
    ensures Scan([1, 1, 1, 1, 1], HighCard) == HighCard
  {
  }

  /** The sorted counts of a hand: positive, one per non-joker card, adding up with the
      jokers to the number of cards. */
  lemma SortedCountsShape(cards: string, partTwo: bool)
    ensures Positive(SortedCounts(cards, partTwo))
    ensures |SortedCounts(cards, partTwo)| == |KeptSet(cards, partTwo)|
    ensures Sum(SortedCounts(cards, partTwo)) + Jokers(cards, partTwo) == |cards|
  {
    var t := CountCards(cards);
    var n := Nums(t, partTwo);
    var s := SortDesc(n);
    NumsShape(t, partTwo);
    assert Sum(s) + Jokers(cards, partTwo) == |cards| by {
      CountsAddUp(cards);
      SortDescSum(n);
    }
    assert |s| == |n| by {
      assert |multiset(s)| == |multiset(n)|;
    }
    assert Positive(s) by {
      forall i | 0 <= i < |s| ensures s[i] >= 1 {
        assert s[i] in multiset(n);
      }
    }
    assert KeptCards(t, partTwo) == KeptSet(cards, partTwo) by {
      forall c ensures c in KeptCards(t, partTwo) <==> c in KeptSet(cards, partTwo) {
        KeptCardsMembers(t, partTwo, c);
      }
    }
  }

  /** The first sorted count is the largest number of copies of a non-joker card. */
  lemma LargestCount(cards: string, partTwo: bool)
    ensures Head(SortedCounts(cards, partTwo)) == MaxCopies(multiset(cards), KeptSet(cards, partTwo))
  {
    var t := CountCards(cards);
    var n := Nums(t, partTwo);
    var s := SortDesc(n);
    var m := multiset(cards);
    var kept := KeptSet(cards, partTwo);
    var most := MaxCopies(m, kept);
    assert KeptCards(t, partTwo) == kept by {
      forall c ensures c in KeptCards(t, partTwo) <==> c in kept {
        KeptCardsMembers(t, partTwo, c);
      }
    }
    assert |s| == |kept| by {
      NumsShape(t, partTwo);
      assert |multiset(s)| == |multiset(n)|;
    }
    if |s| > 0 {
      assert s[0] <= most by {
        NumsBelow(t, partTwo, most);
        assert s[0] in multiset(n);
      }
      assert s[0] >= most by {
        var c :| c in kept && m[c] == most;
        NumsListCount(t, partTwo, c);
        assert CountOf(t, c) in multiset(s);
      }
    }
  }

  /** The model of `_calculate_hand_type` agrees with the reference on every five-card
      hand. */
  lemma HandTypeMatchesReference(cards: string, partTwo: bool)
    requires |cards| == 5
    ensures HandTypeOf(cards, partTwo) == Reference(cards, partTwo)
  {
    var s, j := SortedCounts(cards, partTwo), Jokers(cards, partTwo);
    var kept := KeptSet(cards, partTwo);
    assert Finish(Scan(s, HighCard), j) == Classify(|s|, Head(s) + j) by {
      SortedCountsShape(cards, partTwo);
      ShapeClassifies(s, j);
    }
    assert |s| == |kept| by {
      SortedCountsShape(cards, partTwo);
    }
    assert Head(s) == MaxCopies(multiset(cards), kept) by {
      LargestCount(cards, partTwo);
    }
    assert j == if partTwo then multiset(cards)['J'] else 0;
    ReferenceIs(cards, partTwo, |s|, Head(s) + j);
  }

  lemma ReferenceIs(cards: string, partTwo: bool, distinct: nat, most: nat)
    requires distinct == |KeptSet(cards, partTwo)|
    requires most == MaxCopies(multiset(cards), KeptSet(cards, partTwo)) + if partTwo then multiset(cards)['J'] else 0
    ensures Reference(cards, partTwo) == Classify(distinct, most)
  {
  }

  /** Reordering the cards of a hand, of any size, does not change its type: the
      type depends only on the multiset of the cards. */
  lemma PermutationInvariant(a: string, b: string, partTwo: bool)
    requires multiset(a) == multiset(b)
    ensures HandTypeOf(a, partTwo) == HandTypeOf(b, partTwo)
  {
    var ta, tb := CountCards(a), CountCards(b);
    SameCountsSameNums(ta, tb, partTwo);
    SortedUnique(SortDesc(Nums(ta, partTwo)), SortDesc(Nums(tb, partTwo)));
  }

  // ---------------------------------------------------------------------------------
  // Why the order of the cards does not matter

  /** A listed card has a positive count. */
  lemma {:induction false} ListedCountsPositive(t: seq<Tally>, c: char)
    requires PositiveCounts(t) && c in Cards(t)
    ensures CountOf(t, c) >= 1
  {
    if t[0].card != c {
      assert PositiveCounts(t[1..]) by {
        forall i | 0 <= i < |t[1..]| ensures t[1..][i].count >= 1 {
          assert t[1..][i] == t[i + 1];
        }
      }
      ListedCountsPositive(t[1..], c);
    }
  }

  /** Two descending sequences with the same elements are the same sequence: sorting
      the counts leaves nothing of their original order. */
  lemma {:induction false} SortedUnique(x: seq<nat>, y: seq<nat>)
    requires SortedDesc(x) && SortedDesc(y) && multiset(x) == multiset(y)
    ensures x == y
    decreases |x|
  {
    assert |x| == |y| by {
      assert |multiset(x)| == |x| && |multiset(y)| == |y|;
    }
    if |x| > 0 {
      SortedSameHead(x, y);
      SortedTail(x);
      SortedTail(y);
      SortedUnique(x[1..], y[1..]);
      assert x == [x[0]] + x[1..] && y == [y[0]] + y[1..];
    }
  }

  /** Two descending sequences with the same elements start with the same maximum, and
      what follows has the same elements. */
  lemma SortedSameHead(x: seq<nat>, y: seq<nat>)
    requires SortedDesc(x) && SortedDesc(y) && multiset(x) == multiset(y) && |x| > 0
    ensures |y| > 0 && x[0] == y[0] && multiset(x[1..]) == multiset(y[1..])
  {
    assert x[0] in x;
    assert |y| > 0 && y[0] in y;
    SortedHeadIsMax(y, x[0]);
    SortedHeadIsMax(x, y[0]);
    MultisetTail(x);
    MultisetTail(y);
  }

  lemma SortedHeadIsMax(x: seq<nat>, v: nat)
    requires SortedDesc(x) && v in multiset(x)
    ensures x[0] >= v
  {
    var i :| 0 <= i < |x| && x[i] == v;
  }

  lemma MultisetTail(x: seq<nat>)
    requires |x| > 0
    ensures multiset(x[1..]) == multiset(x) - multiset{x[0]}
  {
    assert x == [x[0]] + x[1..];
    assert multiset(x) == multiset{x[0]} + multiset(x[1..]);
  }

  lemma SortedTail(x: seq<nat>)
    requires SortedDesc(x) && |x| > 0
    ensures SortedDesc(x[1..])
  {
    forall i, j | 0 <= i < j < |x| - 1 ensures x[1..][i] >= x[1..][j] {
      assert x[1..][i] == x[i + 1] && x[1..][j] == x[j + 1];
    }
  }

  /** The tally without the entry of `c`. */
  function Remove(t: seq<Tally>, c: char): seq<Tally>
  {
    if |t| == 0 then [] else if t[0].card == c then t[1..] else [t[0]] + Remove(t[1..], c)
  }

  /** Removing the entry of `c` from a tally of distinct cards forgets `c` and only
      `c`. */
  lemma {:induction false} RemoveCounts(t: seq<Tally>, c: char)
    requires DistinctCards(t) && PositiveCounts(t)
    ensures DistinctCards(Remove(t, c)) && PositiveCounts(Remove(t, c))
    ensures Cards(Remove(t, c)) == Cards(t) - {c}
    ensures forall d :: CountOf(Remove(t, c), d) == if d == c then 0 else CountOf(t, d)
  {
    if |t| > 0 {
      var rest := t[1..];
      assert PositiveCounts(rest) by {
        forall i | 0 <= i < |rest| ensures rest[i].count >= 1 {
          assert rest[i] == t[i + 1];
        }
      }
      if t[0].card == c {
        NotListedCountsZero(rest, c);
      } else {
        RemoveCounts(rest, c);
        var r := Remove(rest, c);
        assert ([t[0]] + r)[0] == t[0] && ([t[0]] + r)[1..] == r;
        assert PositiveCounts([t[0]] + r) by {
          forall i | 0 <= i < |r| + 1 ensures ([t[0]] + r)[i].count >= 1 {
            if i > 0 {
              assert ([t[0]] + r)[i] == r[i - 1];
            }
          }
        }
      }
    }
  }

  /** Removing the entry of `c` removes its count, if kept, from the counts the loop
      reads. */
  lemma {:induction false} RemoveNums(t: seq<Tally>, c: char, partTwo: bool)
    requires DistinctCards(t)
    ensures multiset(Nums(t, partTwo)) == multiset(Nums(Remove(t, c), partTwo)) +
      if c in Cards(t) && !(partTwo && c == 'J') then multiset{CountOf(t, c)} else multiset{}
  {
    if |t| > 0 {
      var rest := t[1..];
      if t[0].card == c {
        NotListedCountsZero(rest, c);
      } else {
        RemoveNums(rest, c, partTwo);
        var r := Remove(rest, c);
        assert ([t[0]] + r)[0] == t[0] && ([t[0]] + r)[1..] == r;
      }
    }
  }

  /** Tallies that agree on every count give the loop the same counts, up to order. */
  lemma {:induction false} SameCountsSameNums(t1: seq<Tally>, t2: seq<Tally>, partTwo: bool)
    requires DistinctCards(t1) && PositiveCounts(t1) && DistinctCards(t2) && PositiveCounts(t2)
    requires forall c :: CountOf(t1, c) == CountOf(t2, c)
    ensures multiset(Nums(t1, partTwo)) == multiset(Nums(t2, partTwo))
    decreases |t1|
  {
    if |t1| == 0 {
      assert |t2| == 0 by {
        if |t2| > 0 {
          ListedCountsPositive(t2, t2[0].card);
        }
      }
    } else {
      SameCountsRest(t1, t2);
      SameCountsSameNums(t1[1..], Remove(t2, t1[0].card), partTwo);
      SameCountsHead(t1, t2, partTwo);
    }
  }

  /** Dropping the first card of one tally and the same card of the other keeps the
      counts equal. */
  lemma SameCountsRest(t1: seq<Tally>, t2: seq<Tally>)
    requires |t1| > 0
    requires DistinctCards(t1) && PositiveCounts(t1) && DistinctCards(t2) && PositiveCounts(t2)
    requires forall c :: CountOf(t1, c) == CountOf(t2, c)
    ensures DistinctCards(t1[1..]) && PositiveCounts(t1[1..])
    ensures DistinctCards(Remove(t2, t1[0].card)) && PositiveCounts(Remove(t2, t1[0].card))
    ensures forall c :: CountOf(t1[1..], c) == CountOf(Remove(t2, t1[0].card), c)
  {
    var x, r1 := t1[0], t1[1..];
    assert PositiveCounts(r1) by {
      forall i | 0 <= i < |r1| ensures r1[i].count >= 1 {
        assert r1[i] == t1[i + 1];
      }
    }
    NotListedCountsZero(r1, x.card);
    RemoveCounts(t2, x.card);
  }

  /** The first card's count is the one `Remove` takes out of the other tally. */
  lemma SameCountsHead(t1: seq<Tally>, t2: seq<Tally>, partTwo: bool)
    requires |t1| > 0
    requires DistinctCards(t1) && PositiveCounts(t1) && DistinctCards(t2)
    requires forall c :: CountOf(t1, c) == CountOf(t2, c)
    requires multiset(Nums(t1[1..], partTwo)) == multiset(Nums(Remove(t2, t1[0].card), partTwo))
    ensures multiset(Nums(t1, partTwo)) == multiset(Nums(t2, partTwo))
  {
    var x := t1[0];
    assert x.card in Cards(t2) by {
      if x.card !in Cards(t2) {
        NotListedCountsZero(t2, x.card);
      }
    }
    assert CountOf(t2, x.card) == x.count;
    RemoveNums(t2, x.card, partTwo);
  }

  /** The joker block is written for five cards: with six, two jokers can lower the
      type. Four copies of one card and two jokers, `"2222JJ"` say, make four of a
      kind without the jokers and three of a kind with them. */
  lemma SixCardsJokersLower(cards: string, c: char)
    requires c != 'J' && |cards| == 6 && multiset(cards)[c] == 4 && multiset(cards)['J'] == 2
    ensures BaseType(cards, true) == FourOfAKind
    ensures HandTypeOf(cards, true) == ThreeOfAKind
  {
    SixCardsCounts(cards, c);
  }

  lemma SixCardsCounts(cards: string, c: char)
    requires c != 'J' && |cards| == 6 && multiset(cards)[c] == 4 && multiset(cards)['J'] == 2
    ensures Jokers(cards, true) == 2
    ensures |SortedCounts(cards, true)| > 0 && SortedCounts(cards, true)[0] == 4
  {
    var sc := SortedCounts(cards, true);
    SortedCountsShape(cards, true);
    assert |sc| > 0 && sc[0] >= 4 by {
      LargestCount(cards, true);
      assert c in KeptSet(cards, true);
    }
    SumFront(sc);
    assert Positive(sc[1..]) by {
      forall i | 0 <= i < |sc| - 1 ensures sc[1..][i] > 0 {
        assert sc[1..][i] == sc[i + 1];
      }
    }
    SumAtLeastLength(sc[1..]);
  }

  /** Four or five jokers always make five of a kind. */
  lemma FourJokersMakeFive(cards: string)
    requires multiset(cards)['J'] >= 4
    ensures HandTypeOf(cards, true) == FiveOfAKind
  {
  }

  /** In part two, a five-card hand with a joker is of a strictly stronger type than its
      other cards alone. */
  lemma JokersImprove(cards: string)
    requires |cards| == 5 && 'J' in cards
    ensures Strength(HandTypeOf(cards, true)) > Strength(BaseType(cards, true))
  {
    SortedCountsShape(cards, true);
    assert multiset(cards)['J'] > 0;
    assert Jokers(cards, true) > 0;
    ShapeClassifies(SortedCounts(cards, true), Jokers(cards, true));
  }

  /** Without a 'J' the two parts classify alike. */
  lemma NoJokerSameType(cards: string)
    requires 'J' !in cards
    ensures HandTypeOf(cards, true) == HandTypeOf(cards, false)
  {
    var t := CountCards(cards);
    NumsWithoutJoker(t);
  }

  lemma {:induction false} NumsWithoutJoker(t: seq<Tally>)
    requires 'J' !in Cards(t)
    ensures Nums(t, true) == Nums(t, false)
    ensures CountOf(t, 'J') == 0
  {
    if |t| > 0 {
      NumsWithoutJoker(t[1..]);
    }
  }

  // ---------------------------------------------------------------------------------
  // Comparing hands

  /** `Hand`: the cards, the bid, and the type worked out when the hand is made. */
  datatype Hand = Hand(cards: string, bid: int, handType: HandType)

  /** `Hand(cards, bid)` with the mode (`PART_TWO`) that is active when it is made. */
  function MakeHand(cards: string, bid: int, partTwo: bool): Hand
  {
    Hand(cards, bid, HandTypeOf(cards, partTwo))
  }

  /** Every card is a key of the value tables (any other character makes the lookup
      fail). */
  predicate ValidCards(s: string)
  {
    forall i :: 0 <= i < |s| ==> IsCard(s[i])
  }

  /** The card loop of `__lt__`: the first zipped pair of different values decides;
      running out of pairs means "not less". */
  predicate CardsLess(a: string, b: string, partTwo: bool)
    requires ValidCards(a) && ValidCards(b)
  {
    if |a| == 0 || |b| == 0 then false
    else if CardValue(a[0], partTwo) != CardValue(b[0], partTwo) then CardValue(a[0], partTwo) < CardValue(b[0], partTwo)
    else CardsLess(a[1..], b[1..], partTwo)
  }

  /** The card loop of `__gt__`. */
  predicate CardsGreater(a: string, b: string, partTwo: bool)
    requires ValidCards(a) && ValidCards(b)
  {
    if |a| == 0 || |b| == 0 then false
    else if CardValue(a[0], partTwo) != CardValue(b[0], partTwo) then CardValue(a[0], partTwo) > CardValue(b[0], partTwo)
    else CardsGreater(a[1..], b[1..], partTwo)
  }

  /** The card loop of `__eq__`: every zipped pair has equal values. */
  predicate CardsSame(a: string, b: string, partTwo: bool)
    requires ValidCards(a) && ValidCards(b)
  {
    if |a| == 0 || |b| == 0 then true
    else if CardValue(a[0], partTwo) != CardValue(b[0], partTwo) then false
    else CardsSame(a[1..], b[1..], partTwo)
  }

  /** `Hand.__lt__`. */
  predicate Less(h1: Hand, h2: Hand, partTwo: bool)
    requires ValidCards(h1.cards) && ValidCards(h2.cards)
  {
    if Strength(h1.handType) < Strength(h2.handType) then true
    else if Strength(h1.handType) > Strength(h2.handType) then false
    else CardsLess(h1.cards, h2.cards, partTwo)
  }

  /** `Hand.__gt__`. */
  predicate Greater(h1: Hand, h2: Hand, partTwo: bool)
    requires ValidCards(h1.cards) && ValidCards(h2.cards)
  {
    if Strength(h1.handType) > Strength(h2.handType) then true
    else if Strength(h1.handType) < Strength(h2.handType) then false
    else CardsGreater(h1.cards, h2.cards, partTwo)
  }

  /** `Hand.__eq__`: the bid plays no part. */
  predicate Equal(h1: Hand, h2: Hand, partTwo: bool)
    requires ValidCards(h1.cards) && ValidCards(h2.cards)
  {
    if h1.handType != h2.handType then false else CardsSame(h1.cards, h2.cards, partTwo)
  }

  /** `__ge__` and `__le__`. */
  predicate AtLeast(h1: Hand, h2: Hand, partTwo: bool)
    requires ValidCards(h1.cards) && ValidCards(h2.cards)
  {
    !Less(h1, h2, partTwo)
  }

  predicate AtMost(h1: Hand, h2: Hand, partTwo: bool)
    requires ValidCards(h1.cards) && ValidCards(h2.cards)
  {
    !Greater(h1, h2, partTwo)
  }

  /** Where the zipped card values first differ; the length of the shorter hand when
      they never do. */
  function FirstDifference(a: string, b: string, partTwo: bool): (i: nat)
    requires ValidCards(a) && ValidCards(b)
    ensures i <= |a| && i <= |b|
    ensures forall k :: 0 <= k < i ==> CardValue(a[k], partTwo) == CardValue(b[k], partTwo)
    ensures i < |a| && i < |b| ==> CardValue(a[i], partTwo) != CardValue(b[i], partTwo)
  {
    if |a| == 0 || |b| == 0 || CardValue(a[0], partTwo) != CardValue(b[0], partTwo) then 0
    else 1 + FirstDifference(a[1..], b[1..], partTwo)
  }

  /** The three card loops read off the first difference: `CardsLess` and
      `CardsGreater` compare the values there, `CardsSame` holds when there is none. */
  lemma CardLoops(a: string, b: string, partTwo: bool)
    requires ValidCards(a) && ValidCards(b)
    ensures var i := FirstDifference(a, b, partTwo);
      && (CardsLess(a, b, partTwo) <==> i < |a| && i < |b| && CardValue(a[i], partTwo) < CardValue(b[i], partTwo))
      && (CardsGreater(a, b, partTwo) <==> i < |a| && i < |b| && CardValue(a[i], partTwo) > CardValue(b[i], partTwo))
      && (CardsSame(a, b, partTwo) <==> i == |a| || i == |b|)
  {
    LessLoop(a, b, partTwo);
    GreaterLoop(a, b, partTwo);
    SameLoop(a, b, partTwo);
  }

  /** Past a matching first card, the loops go on with the rest of both hands. */
  lemma DropFirst(a: string, b: string, partTwo: bool)
    requires ValidCards(a) && ValidCards(b) && |a| > 0 && |b| > 0
    requires CardValue(a[0], partTwo) == CardValue(b[0], partTwo)
    ensures ValidCards(a[1..]) && ValidCards(b[1..])
    ensures FirstDifference(a, b, partTwo) == 1 + FirstDifference(a[1..], b[1..], partTwo)
    ensures CardsLess(a, b, partTwo) == CardsLess(a[1..], b[1..], partTwo)
    ensures CardsGreater(a, b, partTwo) == CardsGreater(a[1..], b[1..], partTwo)
    ensures CardsSame(a, b, partTwo) == CardsSame(a[1..], b[1..], partTwo)
  {
    assert ValidCards(a[1..]) by {
      forall i | 0 <= i < |a| - 1 ensures IsCard(a[1..][i]) {
        assert a[1..][i] == a[i + 1];
      }
    }
    assert ValidCards(b[1..]) by {
      forall i | 0 <= i < |b| - 1 ensures IsCard(b[1..][i]) {
        assert b[1..][i] == b[i + 1];
      }
    }
  }

  lemma {:induction false} LessLoop(a: string, b: string, partTwo: bool)
    requires ValidCards(a) && ValidCards(b)
    ensures var i := FirstDifference(a, b, partTwo);
      CardsLess(a, b, partTwo) <==> i < |a| && i < |b| && CardValue(a[i], partTwo) < CardValue(b[i], partTwo)
  {
    if |a| > 0 && |b| > 0 && CardValue(a[0], partTwo) == CardValue(b[0], partTwo) {
      DropFirst(a, b, partTwo);
      LessLoop(a[1..], b[1..], partTwo);
      LessStep(a, b, partTwo);
    }
  }

  /** The step of `LessLoop`: past a matching first card, the tails decide. */
  lemma LessStep(a: string, b: string, partTwo: bool)
    requires ValidCards(a) && ValidCards(b) && |a| > 0 && |b| > 0
    requires ValidCards(a[1..]) && ValidCards(b[1..])
    requires FirstDifference(a, b, partTwo) == 1 + FirstDifference(a[1..], b[1..], partTwo)
    requires CardsLess(a, b, partTwo) == CardsLess(a[1..], b[1..], partTwo)
    requires var d := FirstDifference(a[1..], b[1..], partTwo);
      CardsLess(a[1..], b[1..], partTwo) <==>
        d < |a| - 1 && d < |b| - 1 && CardValue(a[1..][d], partTwo) < CardValue(b[1..][d], partTwo)
    ensures var i := FirstDifference(a, b, partTwo);
      CardsLess(a, b, partTwo) <==> i < |a| && i < |b| && CardValue(a[i], partTwo) < CardValue(b[i], partTwo)
  {
    var d := FirstDifference(a[1..], b[1..], partTwo);
    if d < |a| - 1 && d < |b| - 1 {
      assert a[1..][d] == a[d + 1] && b[1..][d] == b[d + 1];
    }
  }

  lemma {:induction false} GreaterLoop(a: string, b: string, partTwo: bool)
    requires ValidCards(a) && ValidCards(b)
    ensures var i := FirstDifference(a, b, partTwo);
      CardsGreater(a, b, partTwo) <==> i < |a| && i < |b| && CardValue(a[i], partTwo) > CardValue(b[i], partTwo)
  {
    if |a| > 0 && |b| > 0 && CardValue(a[0], partTwo) == CardValue(b[0], partTwo) {
      DropFirst(a, b, partTwo);
      GreaterLoop(a[1..], b[1..], partTwo);
      GreaterStep(a, b, partTwo);
    }
  }

  /** The step of `GreaterLoop`: past a matching first card, the tails decide. */
  lemma GreaterStep(a: string, b: string, partTwo: bool)
    requires ValidCards(a) && ValidCards(b) && |a| > 0 && |b| > 0
    requires ValidCards(a[1..]) && ValidCards(b[1..])
    requires FirstDifference(a, b, partTwo) == 1 + FirstDifference(a[1..], b[1..], partTwo)
    requires CardsGreater(a, b, partTwo) == CardsGreater(a[1..], b[1..], partTwo)
    requires var d := FirstDifference(a[1..], b[1..], partTwo);
      CardsGreater(a[1..], b[1..], partTwo) <==>
        d < |a| - 1 && d < |b| - 1 && CardValue(a[1..][d], partTwo) > CardValue(b[1..][d], partTwo)
    ensures var i := FirstDifference(a, b, partTwo);
      CardsGreater(a, b, partTwo) <==> i < |a| && i < |b| && CardValue(a[i], partTwo) > CardValue(b[i], partTwo)
  {
    var d := FirstDifference(a[1..], b[1..], partTwo);
    if d < |a| - 1 && d < |b| - 1 {
      assert a[1..][d] == a[d + 1] && b[1..][d] == b[d + 1];
    }
  }

  lemma {:induction false} SameLoop(a: string, b: string, partTwo: bool)
    requires ValidCards(a) && ValidCards(b)
    ensures var i := FirstDifference(a, b, partTwo);
      CardsSame(a, b, partTwo) <==> i == |a| || i == |b|
  {
    if |a| > 0 && |b| > 0 && CardValue(a[0], partTwo) == CardValue(b[0], partTwo) {
      DropFirst(a, b, partTwo);
      SameLoop(a[1..], b[1..], partTwo);
    }
  }

  /** Hands are ordered by type first and then lexicographically by card value. */
  lemma LessIsLexicographic(h1: Hand, h2: Hand, partTwo: bool)
    requires ValidCards(h1.cards) && ValidCards(h2.cards)
    ensures Less(h1, h2, partTwo) <==>
      || Strength(h1.handType) < Strength(h2.handType)
      || (&& h1.handType == h2.handType
          && exists i :: 0 <= i < |h1.cards| && i < |h2.cards|
               && (forall k :: 0 <= k < i ==> CardValue(h1.cards[k], partTwo) == CardValue(h2.cards[k], partTwo))
               && CardValue(h1.cards[i], partTwo) < CardValue(h2.cards[i], partTwo))
  {
    var a, b := h1.cards, h2.cards;
    CardLoops(a, b, partTwo);
    StrengthInjective(h1.handType, h2.handType);
    var d := FirstDifference(a, b, partTwo);
    forall i | 0 <= i < |a| && i < |b|
      && (forall k :: 0 <= k < i ==> CardValue(a[k], partTwo) == CardValue(b[k], partTwo))
      && CardValue(a[i], partTwo) < CardValue(b[i], partTwo)
      ensures i == d
    {
    }
  }

  /** `__gt__` is `__lt__` with the hands swapped. */
  lemma GreaterIsConverse(h1: Hand, h2: Hand, partTwo: bool)
    requires ValidCards(h1.cards) && ValidCards(h2.cards)
    ensures Greater(h1, h2, partTwo) <==> Less(h2, h1, partTwo)
  {
    CardLoops(h1.cards, h2.cards, partTwo);
    CardLoops(h2.cards, h1.cards, partTwo);
    FirstDifferenceSymmetric(h1.cards, h2.cards, partTwo);
  }

  lemma {:induction false} FirstDifferenceSymmetric(a: string, b: string, partTwo: bool)
    requires ValidCards(a) && ValidCards(b)
    ensures FirstDifference(a, b, partTwo) == FirstDifference(b, a, partTwo)
  {
    if |a| > 0 && |b| > 0 && CardValue(a[0], partTwo) == CardValue(b[0], partTwo) {
      FirstDifferenceSymmetric(a[1..], b[1..], partTwo);
    }
  }

  /** Exactly one of `<`, `==` and `>` holds between any two hands. */
  lemma Trichotomy(h1: Hand, h2: Hand, partTwo: bool)
    requires ValidCards(h1.cards) && ValidCards(h2.cards)
    ensures Less(h1, h2, partTwo) || Equal(h1, h2, partTwo) || Greater(h1, h2, partTwo)
    ensures !(Less(h1, h2, partTwo) && Equal(h1, h2, partTwo))
    ensures !(Less(h1, h2, partTwo) && Greater(h1, h2, partTwo))
    ensures !(Equal(h1, h2, partTwo) && Greater(h1, h2, partTwo))
  {
    CardLoops(h1.cards, h2.cards, partTwo);
    StrengthInjective(h1.handType, h2.handType);
  }

  /** So `>=` means "greater or equal" and `<=` means "less or equal". */
  lemma AtLeastAtMost(h1: Hand, h2: Hand, partTwo: bool)
    requires ValidCards(h1.cards) && ValidCards(h2.cards)
    ensures AtLeast(h1, h2, partTwo) <==> Greater(h1, h2, partTwo) || Equal(h1, h2, partTwo)
    ensures AtMost(h1, h2, partTwo) <==> Less(h1, h2, partTwo) || Equal(h1, h2, partTwo)
  {
    Trichotomy(h1, h2, partTwo);
  }

  /** Two hands of the same length made in the same mode are equal exactly when they
      hold the same cards in the same order, whatever their bids. */
  lemma EqualIffSameCards(a: string, x: int, b: string, y: int, partTwo: bool)
    requires ValidCards(a) && ValidCards(b) && |a| == |b|
    ensures Equal(MakeHand(a, x, partTwo), MakeHand(b, y, partTwo), partTwo) <==> a == b
  {
    CardLoops(a, b, partTwo);
    var d := FirstDifference(a, b, partTwo);
    if d == |a| {
      forall k | 0 <= k < |a| ensures a[k] == b[k] {
        CardValueInjective(a[k], b[k], partTwo);
      }
    }
  }

  /** `<` is asymmetric: no two hands are each below the other. */
  lemma LessAsymmetric(h1: Hand, h2: Hand, partTwo: bool)
    requires ValidCards(h1.cards) && ValidCards(h2.cards)
    ensures Less(h1, h2, partTwo) ==> !Less(h2, h1, partTwo)
  {
    Trichotomy(h1, h2, partTwo);
    GreaterIsConverse(h1, h2, partTwo);
  }

  /** The loop of `__lt__` over the zipped cards: it stops at the first difference. */
  method CardLoopLess(a: string, b: string, partTwo: bool) returns (less: bool)
    requires ValidCards(a) && ValidCards(b)
    ensures less == CardsLess(a, b, partTwo)
  {
    CardLoops(a, b, partTwo);
    ghost var d := FirstDifference(a, b, partTwo);
    var i := 0;
    while i < |a| && i < |b|
      invariant 0 <= i <= d
    {
      var x, y := CardValue(a[i], partTwo), CardValue(b[i], partTwo);
      if x != y {
        assert i == d;
        return x < y;
      }
      i := i + 1;
    }
    assert i == d;
    return false;
  }

  /** `__lt__`: the hand types decide, and between hands of one type the card loop. */
  method LessThan(h1: Hand, h2: Hand, partTwo: bool) returns (less: bool)
    requires ValidCards(h1.cards) && ValidCards(h2.cards)
    ensures less == Less(h1, h2, partTwo)
    ensures less ==> !Less(h2, h1, partTwo)
  {
    LessAsymmetric(h1, h2, partTwo);
    if Strength(h1.handType) < Strength(h2.handType) {
      return true;
    } else if Strength(h1.handType) > Strength(h2.handType) {
      return false;
    }
    less := CardLoopLess(h1.cards, h2.cards, partTwo);
  }

  // ---------------------------------------------------------------------------------
  // Ranking

  predicate ValidHands(hands: seq<Hand>)
  {
    forall i :: 0 <= i < |hands| ==> ValidCards(hands[i].cards)
  }

  /** The rank the loop of `solution` gives each hand of the sorted list: 1 for the
      first, one more at each hand unequal to the one before it. */
  function Ranks(hands: seq<Hand>, partTwo: bool): (ranks: seq<nat>)
    requires |hands| > 0 && ValidHands(hands)
    ensures |ranks| == |hands| && ranks[0] == 1
    ensures forall i :: 0 <= i < |ranks| ==> 1 <= ranks[i] <= i + 1
    ensures forall i, j :: 0 <= i <= j < |ranks| ==> ranks[i] <= ranks[j]
  {
    if |hands| == 1 then [1]
    else
      var n := |hands|;
      var r := Ranks(hands[..n - 1], partTwo);
      r + [r[n - 2] + if Equal(hands[n - 2], hands[n - 1], partTwo) then 0 else 1]
  }

  /** Neighbours share a rank exactly when they are equal. */
  lemma {:induction false} RankSteps(hands: seq<Hand>, partTwo: bool, i: nat)
    requires |hands| > 0 && ValidHands(hands)
    requires 0 < i < |hands|
    ensures Ranks(hands, partTwo)[i] == Ranks(hands, partTwo)[i - 1] <==> Equal(hands[i - 1], hands[i], partTwo)
    ensures Ranks(hands, partTwo)[i] <= Ranks(hands, partTwo)[i - 1] + 1
  {
    var n := |hands|;
    var init := hands[..n - 1];
    LastRank(hands, partTwo);
    if i < n - 1 {
      RankSteps(init, partTwo, i);
      assert init[i - 1] == hands[i - 1] && init[i] == hands[i];
    }
  }

  /** The ranks of a list extend the ranks of the list without its last hand. */
  lemma LastRank(hands: seq<Hand>, partTwo: bool)
    requires |hands| > 1 && ValidHands(hands)
    ensures var n := |hands|;
      && ValidHands(hands[..n - 1])
      && Ranks(hands, partTwo)[..n - 1] == Ranks(hands[..n - 1], partTwo)
      && Ranks(hands, partTwo)[n - 1] ==
           Ranks(hands[..n - 1], partTwo)[n - 2] + if Equal(hands[n - 2], hands[n - 1], partTwo) then 0 else 1
  {
  }

  /** On a list in strictly increasing order the ranks are the positions 1, 2, 3, ... */
  lemma {:induction false} StrictRanks(hands: seq<Hand>, partTwo: bool)
    requires |hands| > 0 && ValidHands(hands)
    requires forall i :: 0 < i < |hands| ==> Less(hands[i - 1], hands[i], partTwo)
    ensures forall i :: 0 <= i < |hands| ==> Ranks(hands, partTwo)[i] == i + 1
  {
    var n := |hands|;
    if n > 1 {
      var init := hands[..n - 1];
      StrictRanks(init, partTwo);
      Trichotomy(hands[n - 2], hands[n - 1], partTwo);
    }
  }

  /** Sum of rank times bid. */
  function Payout(ranks: seq<nat>, hands: seq<Hand>): int
    requires |ranks| == |hands|
  {
    if |hands| == 0 then 0
    else Payout(ranks[..|ranks| - 1], hands[..|hands| - 1]) + ranks[|ranks| - 1] * hands[|hands| - 1].bid
  }

  /** The winnings over the sorted hands. */
  function Winnings(hands: seq<Hand>, partTwo: bool): int
    requires |hands| > 0 && ValidHands(hands)
  {
    Payout(Ranks(hands, partTwo), hands)
  }

  /** Sum of position (from 1) times bid. */
  function PositionalPayout(hands: seq<Hand>): int
  {
    if |hands| == 0 then 0 else PositionalPayout(hands[..|hands| - 1]) + |hands| * hands[|hands| - 1].bid
  }

  /** Without ties the winnings are the bids weighted by position. */
  lemma StrictWinnings(hands: seq<Hand>, partTwo: bool)
    requires |hands| > 0 && ValidHands(hands)
    requires forall i :: 0 < i < |hands| ==> Less(hands[i - 1], hands[i], partTwo)
    ensures Winnings(hands, partTwo) == PositionalPayout(hands)
  {
    StrictRanks(hands, partTwo);
    PayoutOfPositions(Ranks(hands, partTwo), hands);
  }

  lemma {:induction false} PayoutOfPositions(ranks: seq<nat>, hands: seq<Hand>)
    requires |ranks| == |hands|
    requires forall i :: 0 <= i < |ranks| ==> ranks[i] == i + 1
    ensures Payout(ranks, hands) == PositionalPayout(hands)
  {
    if |hands| > 0 {
      PayoutOfPositions(ranks[..|ranks| - 1], hands[..|hands| - 1]);
    }
  }

  /** One more hand of the loop: its rank follows the previous one's, and its rank
      times its bid is added. */
  lemma WinningsStep(hands: seq<Hand>, partTwo: bool, i: nat)
    requires ValidHands(hands) && 1 <= i < |hands|
    ensures var r, r' := Ranks(hands[..i], partTwo), Ranks(hands[..i + 1], partTwo);
      && r'[i] == r[i - 1] + (if Equal(hands[i - 1], hands[i], partTwo) then 0 else 1)
      && Payout(r', hands[..i + 1]) == Payout(r, hands[..i]) + r'[i] * hands[i].bid
  {
    var prefix := hands[..i + 1];
    assert prefix[..i] == hands[..i];
    var r' := Ranks(prefix, partTwo);
    assert r'[..i] == Ranks(hands[..i], partTwo);
  }

  /** The ranking loop of `solution`, over a list that is already sorted. */
  method TotalWinnings(hands: seq<Hand>, partTwo: bool) returns (winnings: int)
    requires |hands| > 0 && ValidHands(hands)
    ensures winnings == Winnings(hands, partTwo)
  {
    winnings := hands[0].bid;
    var rank := 1;
    var i := 1;
    assert Payout([1], hands[..1]) == Payout([], []) + 1 * hands[0].bid;
    while i < |hands|
      invariant 1 <= i <= |hands|
      invariant rank == Ranks(hands[..i], partTwo)[i - 1]
      invariant winnings == Payout(Ranks(hands[..i], partTwo), hands[..i])
    {
      WinningsStep(hands, partTwo, i);
      if !Equal(hands[i - 1], hands[i], partTwo) {
        rank := rank + 1;
      }
      winnings := winnings + rank * hands[i].bid;
      i := i + 1;
    }
    assert hands[..i] == hands;
  }
}
