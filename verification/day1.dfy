/** day1/day1.py: the calibration value of a line is the two-digit number made of its
    first and last ASCII digit, and the answer is the sum over the lines. */
module Trebuchet {
  import opened Common

  predicate HasDigit(line: string)
  {
    exists i :: 0 <= i < |line| && IsDigit(line[i])
  }

  /** Index of the first digit of `line`; `|line|` when there is none. */
  function FirstDigit(line: string): (i: nat)
    ensures i <= |line|
    ensures forall k :: 0 <= k < i ==> !IsDigit(line[k])
    ensures i < |line| ==> IsDigit(line[i])
  {
    if |line| == 0 then 0
    else if IsDigit(line[0]) then 0
    else 1 + FirstDigit(line[1..])
  }

  /** Index of the last digit of `line`; `-1` when there is none. */
  function LastDigit(line: string): (i: int)
    ensures -1 <= i < |line|
    ensures forall k :: i < k < |line| ==> !IsDigit(line[k])
    ensures i >= 0 ==> IsDigit(line[i])
  {
    if |line| == 0 then -1
    else if IsDigit(line[|line| - 1]) then |line| - 1
    else LastDigit(line[..|line| - 1])
  }

  /** The calibration value as the puzzle defines it: no digit gives 0, otherwise the
      first digit is the tens and the last digit the units. */
  function Calibration(line: string): (n: nat)
    ensures n <= 99
  {
    var i, j := FirstDigit(line), LastDigit(line);
    if i == |line| then 0
    else
      assert IsDigit(line[i]);
      10 * DigitValue(line[i]) + DigitValue(line[j])
  }

  /** `number_from_line`: a scan from the left for the first digit, then one from the
      right for the last. The second scan always finds a digit once the first has, so
      the source's `right_digit < 0` check never fires; the loop invariant
      `left <= right` is what shows it. */
  method NumberFromLine(line: string) returns (n: int)
    ensures n == Calibration(line)
    ensures !HasDigit(line) ==> n == 0
    ensures HasDigit(line) ==>
      exists i, j ::
        && 0 <= i <= j < |line| && IsDigit(line[i]) && IsDigit(line[j])
        && (forall k :: 0 <= k < i || j < k < |line| ==> !IsDigit(line[k]))
        && n == 10 * DigitValue(line[i]) + DigitValue(line[j])
    ensures 0 <= n <= 99
  {
    var length := |line|;
    var left := 0;
    while left < length
      invariant 0 <= left <= length
      invariant forall k :: 0 <= k < left ==> !IsDigit(line[k])
    {
      if IsDigit(line[left]) {
        break;
      }
      left := left + 1;
    }
    if left == length {
      assert FirstDigit(line) == |line|;
      return 0;
    }
    var right := length - 1;
    while right >= 0
      invariant left <= right < length
      invariant forall k :: right < k < length ==> !IsDigit(line[k])
    {
      if IsDigit(line[right]) {
        break;
      }
      right := right - 1;
    }
    assert IsDigit(line[right]);
    CalibrationAt(line, left, right);
    n := 10 * DigitValue(line[left]) + DigitValue(line[right]);
    assert HasDigit(line) ==>
      && 0 <= left <= right < |line| && IsDigit(line[left]) && IsDigit(line[right])
      && (forall k :: 0 <= k < left || right < k < |line| ==> !IsDigit(line[k]))
      && n == 10 * DigitValue(line[left]) + DigitValue(line[right]);
  }

  /** A line whose only digit is `d` scores `11 * d` ("treb7uchet" gives 77). */
  lemma SingleDigit(line: string, i: nat)
    requires i < |line| && IsDigit(line[i])
    requires forall k :: 0 <= k < |line| && k != i ==> !IsDigit(line[k])
    ensures Calibration(line) == 11 * DigitValue(line[i])
  {
    var f, l := FirstDigit(line), LastDigit(line);
    assert f <= i && l >= i;
  }

  /** The calibration value read off any first digit `i` and last digit `j`. */
  lemma CalibrationAt(line: string, i: nat, j: nat)
    requires i <= j < |line| && IsDigit(line[i]) && IsDigit(line[j])
    requires forall k :: 0 <= k < i || j < k < |line| ==> !IsDigit(line[k])
    ensures Calibration(line) == 10 * DigitValue(line[i]) + DigitValue(line[j])
  {
    assert FirstDigit(line) == i;
    assert LastDigit(line) == j;
  }

  /** The sample lines of the puzzle. */
  lemma Examples()
    ensures Calibration("1abc2") == 12
    ensures Calibration("pqr3stu8vwx") == 38
    ensures Calibration("a1b2c3d4e5f") == 15
    ensures Calibration("treb7uchet") == 77
    ensures Calibration("") == 0
  {
    DigitsAtEnds();
    DigitsInside();
    ManyDigits();
    OneDigit();
    NoDigit();
  }

  lemma DigitsAtEnds()
    ensures Calibration("1abc2") == 12
  {
    CalibrationAt("1abc2", 0, 4);
  }

  lemma OneDigit()
    ensures Calibration("treb7uchet") == 77
  {
    var s := "treb7uchet";
    assert !IsDigit(s[0]) && !IsDigit(s[1]) && !IsDigit(s[2]) && !IsDigit(s[3]);
    assert !IsDigit(s[5]) && !IsDigit(s[6]) && !IsDigit(s[7]) && !IsDigit(s[8]) && !IsDigit(s[9]);
    SingleDigit(s, 4);
  }

  lemma NoDigit()
    ensures Calibration("") == 0
  {
  }

  lemma DigitsInside()
    ensures Calibration("pqr3stu8vwx") == 38
  {
    var s := "pqr3stu8vwx";
    assert !IsDigit(s[0]) && !IsDigit(s[1]) && !IsDigit(s[2]);
    assert !IsDigit(s[8]) && !IsDigit(s[9]) && !IsDigit(s[10]);
    CalibrationAt(s, 3, 7);
  }

  lemma ManyDigits()
    ensures Calibration("a1b2c3d4e5f") == 15
  {
    var s := "a1b2c3d4e5f";
    assert !IsDigit(s[0]) && !IsDigit(s[10]);
    CalibrationAt(s, 1, 9);
  }

  /** `solution`: the calibration values of the newline-separated lines, summed. */
  function Lines(data: string): seq<string>
  {
    Split(data, '\n')
  }

  function Scores(lines: seq<string>): (scores: seq<int>)
    ensures |scores| == |lines|
    ensures forall i :: 0 <= i < |lines| ==> scores[i] == Calibration(lines[i])
  {
    if |lines| == 0 then [] else Scores(lines[..|lines| - 1]) + [Calibration(lines[|lines| - 1])]
  }

  function Solution(data: string): int
  {
    Sum(Scores(Lines(data)))
  }

  lemma ScoresAppend(xs: seq<string>, ys: seq<string>)
    ensures Scores(xs + ys) == Scores(xs) + Scores(ys)
  {
  }

  /** The answer adds up over blocks of lines: the text before a newline and the text
      after it are scored separately. */
  lemma SolutionSplitsAtNewline(x: string, y: string)
    ensures Solution(x + "\n" + y) == Solution(x) + Solution(y)
  {
    SplitAtSeparator(x, y, '\n');
    assert x + "\n" + y == x + ['\n'] + y;
    ScoresAppend(Lines(x), Lines(y));
    SumAppend(Scores(Lines(x)), Scores(Lines(y)));
  }

  /** A trailing newline adds an empty line, which scores 0. */
  lemma TrailingNewline(data: string)
    ensures Solution(data + "\n") == Solution(data)
  {
    var s := data + "\n";
    assert Solution(s) == Solution(data) + Solution("") by {
      SolutionSplitsAtNewline(data, "");
      NoEmptyTail(s);
    }
    EmptySolution();
  }

  lemma NoEmptyTail(s: string)
    ensures s + "" == s
  {
  }

  lemma EmptySolution()
    ensures Solution("") == 0
  {
    assert Lines("") == [""];
    assert Scores([""]) == [0];
    assert Sum([0]) == Sum([]) + 0;
  }

  /** Every line scores between 0 and 99, so the total is at most 99 per line. */
  lemma {:induction false} SolutionBounds(lines: seq<string>)
    ensures 0 <= Sum(Scores(lines)) <= 99 * |lines|
  {
    if |lines| > 0 {
      SolutionBounds(lines[..|lines| - 1]);
    }
  }
}
