/** day6/day6.py: holding the button of a toy boat for `t` milliseconds of a race of `T`
    milliseconds moves it `t * (T - t)` millimetres; a race is won by beating the record
    distance. The winning hold times form one interval, symmetric about `T / 2`. */
module BoatRaces {
  import opened Common

  datatype Race = Race(timeLimit: int, record: int)

  function Distance(race: Race, t: int): int
  {
    t * (race.timeLimit - t)
  }

  /** Holding for `t` beats the record; only `1 <= t < T` is ever tried. */
  predicate Wins(race: Race, t: int)
  {
    1 <= t < race.timeLimit && Distance(race, t) > race.record
  }

  predicate Winnable(race: Race)
  {
    exists t :: 1 <= t < race.timeLimit && Wins(race, t)
  }

  /** `min_waiting_time`: the first winning hold time counting up from 1, or 0 when there
      is none. */
  method MinWaitingTime(race: Race) returns (time: int)
    ensures Winnable(race) ==> Wins(race, time) && forall t :: 1 <= t < time ==> !Wins(race, t)
    ensures !Winnable(race) ==> time == 0
  {
    time := 1;
    while time < race.timeLimit
      invariant time >= 1
      invariant forall t :: 1 <= t < time ==> !Wins(race, t)
    {
      if Distance(race, time) > race.record {
        assert Wins(race, time);
        return time;
      }
      time := time + 1;
    }
    assert !Winnable(race);
    return 0;
  }

  /** `max_waiting_time`: the first winning hold time counting down from `T - 1`, or 0
      when there is none. */
  method MaxWaitingTime(race: Race) returns (time: int)
    ensures Winnable(race) ==> Wins(race, time) && forall t :: time < t ==> !Wins(race, t)
    ensures !Winnable(race) ==> time == 0
  {
    time := race.timeLimit - 1;
    while time > 0
      invariant time <= race.timeLimit - 1
      invariant forall t :: time < t ==> !Wins(race, t)
    {
      if Distance(race, time) > race.record {
        assert Wins(race, time);
        return time;
      }
      time := time - 1;
    }
    assert !Winnable(race);
    return 0;
  }

  /** Holding `t` and holding `T - t` go the same distance. */
  lemma Symmetric(race: Race, t: int)
    ensures Wins(race, t) <==> Wins(race, race.timeLimit - t)
  {
    assert Distance(race, race.timeLimit - t) == Distance(race, t);
  }

  /** Between two winning hold times every hold time wins: the distance is a concave
      parabola, so it is at least the smaller of its values at the ends. */
  lemma Contiguous(race: Race, a: int, b: int, t: int)
    requires Wins(race, a) && Wins(race, b) && a <= t <= b
    ensures Wins(race, t)
  {
    var T := race.timeLimit;
    if t + a <= T {
      assert Distance(race, t) - Distance(race, a) == (t - a) * (T - t - a);
      NonNegativeProduct(t - a, T - t - a);
    } else {
      assert Distance(race, t) - Distance(race, b) == (b - t) * (t + b - T);
      NonNegativeProduct(b - t, t + b - T);
    }
  }

  lemma NonNegativeProduct(x: int, y: int)
    requires x >= 0 && y >= 0
    ensures x * y >= 0
  {
  }

  /** The first and last winning hold times mirror each other: `min + max == T`. */
  lemma MinMaxMirror(race: Race, lo: int, hi: int)
    requires Wins(race, lo) && forall t :: 1 <= t < lo ==> !Wins(race, t)
    requires Wins(race, hi) && forall t :: hi < t ==> !Wins(race, t)
    ensures lo <= hi && lo + hi == race.timeLimit
  {
    Symmetric(race, lo);
    Symmetric(race, hi);
  }

  /** The number of winning hold times in `[lo, hi)`. */
  function CountWins(race: Race, lo: int, hi: int): (n: nat)
    decreases hi - lo
  {
    if lo >= hi then 0 else (if Wins(race, lo) then 1 else 0) + CountWins(race, lo + 1, hi)
  }

  lemma {:induction false} CountNone(race: Race, lo: int, hi: int)
    requires forall t :: lo <= t < hi ==> !Wins(race, t)
    ensures CountWins(race, lo, hi) == 0
    decreases hi - lo
  {
    if lo < hi {
      CountNone(race, lo + 1, hi);
    }
  }

  lemma {:induction false} CountAll(race: Race, lo: int, hi: int)
    requires lo <= hi
    requires forall t :: lo <= t < hi ==> Wins(race, t)
    ensures CountWins(race, lo, hi) == hi - lo
    decreases hi - lo
  {
    if lo < hi {
      CountAll(race, lo + 1, hi);
    }
  }

  lemma {:induction false} CountSplit(race: Race, lo: int, mid: int, hi: int)
    requires lo <= mid <= hi
    ensures CountWins(race, lo, hi) == CountWins(race, lo, mid) + CountWins(race, mid, hi)
    decreases mid - lo
  {
    if lo < mid {
      CountSplit(race, lo + 1, mid, hi);
    }
  }

  /** `num_ways_to_win`: `max - min + 1`. */
  method NumWaysToWin(race: Race) returns (ways: int)
    ensures Winnable(race) ==> ways == CountWins(race, 1, race.timeLimit)
    ensures !Winnable(race) ==> ways == 1
  {
    var hi := MaxWaitingTime(race);
    var lo := MinWaitingTime(race);
    ways := hi - lo + 1;
    if Winnable(race) {
      MinMaxMirror(race, lo, hi);
      WinningInterval(race, lo, hi);
    }
  }

  /** With a first winner `lo` and a last winner `hi`, the winners are exactly
      `[lo, hi]`, so there are `hi - lo + 1` of them. */
  lemma WinningInterval(race: Race, lo: int, hi: int)
    requires Wins(race, lo) && forall t :: 1 <= t < lo ==> !Wins(race, t)
    requires Wins(race, hi) && forall t :: hi < t ==> !Wins(race, t)
    requires lo <= hi
    ensures CountWins(race, 1, race.timeLimit) == hi - lo + 1
  {
    var T := race.timeLimit;
    CountSplit(race, 1, lo, T);
    CountSplit(race, lo, hi + 1, T);
    CountNone(race, 1, lo);
    CountNone(race, hi + 1, T);
    forall t | lo <= t < hi + 1 ensures Wins(race, t) {
      Contiguous(race, lo, hi, t);
    }
    CountAll(race, lo, hi + 1);
  }

  /** What `num_ways_to_win` returns, stated without the searches: the number of winning
      hold times, or 1 for a race that cannot be won (0 - 0 + 1). */
  function Ways(race: Race): int
  {
    if Winnable(race) then CountWins(race, 1, race.timeLimit) else 1
  }

  function AllWays(races: seq<Race>): (ways: seq<int>)
    ensures |ways| == |races|
    ensures forall i :: 0 <= i < |races| ==> ways[i] == Ways(races[i])
  {
    if |races| == 0 then [] else AllWays(races[..|races| - 1]) + [Ways(races[|races| - 1])]
  }

  /** `solution`: the product of the ways to win each race. */
  method Solution(races: seq<Race>) returns (product: int)
    ensures product == Product(AllWays(races))
  {
    var ways: seq<int> := [];
    var i := 0;
    while i < |races|
      invariant 0 <= i <= |races|
      invariant ways == AllWays(races[..i])
    {
      var w := NumWaysToWin(races[i]);
      assert races[..i + 1][..i] == races[..i];
      ways := ways + [w];
      i := i + 1;
    }
    assert races[..i] == races;
    product := Product(ways);
  }

  /** The two races the tests use: 7 ms against a record of 9 is won by holding 2 to 5,
      against a record of 10 by holding 3 or 4. The first and last winners, with the
      searches' contracts, fix what `min_waiting_time` and `max_waiting_time` return. */
  lemma ExampleRaces()
    ensures !Wins(Race(7, 9), 1) && Wins(Race(7, 9), 2) && Wins(Race(7, 9), 5) && !Wins(Race(7, 9), 6)
    ensures !Wins(Race(7, 10), 2) && Wins(Race(7, 10), 3) && Wins(Race(7, 10), 4) && !Wins(Race(7, 10), 5)
    ensures CountWins(Race(7, 9), 1, 7) == 4
    ensures CountWins(Race(7, 10), 1, 7) == 2
  {
    assert Distance(Race(7, 9), 1) == 6 && Distance(Race(7, 9), 2) == 10;
    assert Distance(Race(7, 9), 5) == 10 && Distance(Race(7, 9), 6) == 6;
    assert Distance(Race(7, 9), 3) == 12 && Distance(Race(7, 9), 4) == 12;
  }
}
