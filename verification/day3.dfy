/** day3/day3.py: an engine schematic is a grid of text rows. Part numbers are the
    maximal runs of digits of a row; a part number counts when a symbol (anything but a
    digit or '.') lies in the ring of cells around it. */
module Schematic {
  import opened Common

  datatype PartNumber = PartNumber(row: int, startCol: int, endCol: int, value: int)

  datatype Grid = Grid(rows: seq<string>, height: int, width: int)

  /** `is_symbol`. */
  predicate IsSymbol(c: char)
  {
    !(IsDigit(c) || c == '.')
  }

  lemma IsSymbolExamples()
    ensures !IsSymbol('.')
    ensures forall c :: '0' <= c <= '9' ==> !IsSymbol(c)
    ensures IsSymbol('$') && IsSymbol('#') && IsSymbol('@') && IsSymbol('*') && IsSymbol('+')
  {
  }

  /** `within_grid`. */
  predicate WithinGrid(grid: Grid, row: int, col: int)
  {
    0 <= row < grid.height && 0 <= col < grid.width
  }

  /** The rows the grid claims to have are there, each at least `width` long; the
      source indexes `rows[row][col]` for every in-grid cell it checks. */
  predicate WellFormed(grid: Grid)
  {
    grid.height <= |grid.rows| && forall r :: 0 <= r < grid.height ==> grid.width <= |grid.rows[r]|
  }

  /** The decimal value of a string of ASCII digits (`int(s)`). */
  function DecimalValue(s: string): (v: nat)
    requires forall k :: 0 <= k < |s| ==> IsDigit(s[k])
  {
    if |s| == 0 then 0 else 10 * DecimalValue(s[..|s| - 1]) + DigitValue(s[|s| - 1])
  }

  /** A digit string is worth less than `10^|s|`. */
  lemma {:induction false} DecimalValueBound(s: string)
    requires forall k :: 0 <= k < |s| ==> IsDigit(s[k])
    ensures DecimalValue(s) < Pow10(|s|)
  {
    if |s| > 0 {
      DecimalValueBound(s[..|s| - 1]);
    }
  }

  function Pow10(n: nat): nat
  {
    if n == 0 then 1 else 10 * Pow10(n - 1)
  }

  /** `p` is the maximal run of digits `line[startCol..endCol]` of row `rowNum`, with
      its decimal value. */
  predicate IsRun(line: string, rowNum: int, p: PartNumber)
  {
    && p.row == rowNum
    && 0 <= p.startCol <= p.endCol < |line|
    && (forall k :: p.startCol <= k <= p.endCol ==> IsDigit(line[k]))
    && (p.startCol == 0 || !IsDigit(line[p.startCol - 1]))
    && (p.endCol == |line| - 1 || !IsDigit(line[p.endCol + 1]))
    && p.value == DecimalValue(line[p.startCol..p.endCol + 1])
  }

  predicate Covered(parts: seq<PartNumber>, k: int)
  {
    exists i :: 0 <= i < |parts| && parts[i].startCol <= k <= parts[i].endCol
  }

  /** What the scan of `get_part_numbers` knows after reading `line[..index]`: the
      runs found so far are maximal and ordered, and every digit read so far lies in one
      of them or in the run still open at `numStart`. */
  predicate ScanState(line: string, rowNum: int, parts: seq<PartNumber>, index: int, inRun: bool, numStart: int)
  {
    && 0 <= index <= |line|
    && (forall i :: 0 <= i < |parts| ==> IsRun(line, rowNum, parts[i]))
    && (forall i :: 0 <= i < |parts| - 1 ==> parts[i].endCol + 1 < parts[i + 1].startCol)
    && (forall i :: 0 <= i < |parts| ==> parts[i].endCol < index)
    && (inRun ==> 0 <= numStart < index)
    && (inRun ==> forall k :: numStart <= k < index ==> IsDigit(line[k]))
    && (inRun ==> numStart == 0 || !IsDigit(line[numStart - 1]))
    && (inRun && |parts| > 0 ==> parts[|parts| - 1].endCol + 1 < numStart)
    && (!inRun && index > 0 ==> !IsDigit(line[index - 1]))
    && (forall k :: 0 <= k < index && IsDigit(line[k]) ==> Covered(parts, k) || (inRun && numStart <= k))
  }

  /** The run `line[numStart..index]`, as the source records it. */
  function RunEndingAt(line: string, rowNum: int, numStart: int, index: int): PartNumber
    requires 0 <= numStart <= index <= |line|
    requires forall k :: numStart <= k < index ==> IsDigit(line[k])
  {
    PartNumber(rowNum, numStart, index - 1, DecimalValue(line[numStart..index]))
  }

  /** The open run `line[numStart..index]`, closed where the digits stop, is a maximal
      run of digits with its decimal value. */
  lemma ClosedRunIsRun(line: string, rowNum: int, parts: seq<PartNumber>, index: int, numStart: int)
    requires ScanState(line, rowNum, parts, index, true, numStart)
    requires index == |line| || !IsDigit(line[index])
    ensures IsRun(line, rowNum, RunEndingAt(line, rowNum, numStart, index))
  {
    var p := RunEndingAt(line, rowNum, numStart, index);
    assert line[p.startCol..p.endCol + 1] == line[numStart..index];
  }

  /** Recording the open run `line[numStart..index]` when the scan stops seeing digits
      at `index`: it is maximal, comes after the earlier runs, and with them covers every
      digit read so far. */
  lemma AppendRun(line: string, rowNum: int, parts: seq<PartNumber>, index: int, numStart: int)
    requires ScanState(line, rowNum, parts, index, true, numStart)
    requires index == |line| || !IsDigit(line[index])
    ensures var parts' := parts + [RunEndingAt(line, rowNum, numStart, index)];
      && (forall i :: 0 <= i < |parts'| ==> IsRun(line, rowNum, parts'[i]))
      && (forall i :: 0 <= i < |parts'| - 1 ==> parts'[i].endCol + 1 < parts'[i + 1].startCol)
      && (forall i :: 0 <= i < |parts'| ==> parts'[i].endCol < index)
      && (forall k :: 0 <= k < index && IsDigit(line[k]) ==> Covered(parts', k))
  {
    ClosedRunIsRun(line, rowNum, parts, index, numStart);
    AppendedRunsOrdered(line, rowNum, parts, index, numStart);
    AppendedRunsCover(line, rowNum, parts, index, numStart);
  }

  lemma AppendedRunsOrdered(line: string, rowNum: int, parts: seq<PartNumber>, index: int, numStart: int)
    requires ScanState(line, rowNum, parts, index, true, numStart)
    ensures var parts' := parts + [RunEndingAt(line, rowNum, numStart, index)];
      && (forall i :: 0 <= i < |parts'| - 1 ==> parts'[i].endCol + 1 < parts'[i + 1].startCol)
      && (forall i :: 0 <= i < |parts'| ==> parts'[i].endCol < index)
  {
  }

  lemma AppendedRunsCover(line: string, rowNum: int, parts: seq<PartNumber>, index: int, numStart: int)
    requires ScanState(line, rowNum, parts, index, true, numStart)
    ensures forall k :: 0 <= k < index && IsDigit(line[k]) ==>
      Covered(parts + [RunEndingAt(line, rowNum, numStart, index)], k)
  {
    var parts' := parts + [RunEndingAt(line, rowNum, numStart, index)];
    forall k | 0 <= k < index && IsDigit(line[k]) ensures Covered(parts', k) {
      if numStart <= k {
        assert parts'[|parts|].startCol <= k <= parts'[|parts|].endCol;
      } else {
        var i :| 0 <= i < |parts| && parts[i].startCol <= k <= parts[i].endCol;
        assert parts'[i] == parts[i];
      }
    }
  }

  /** Closing the open run at a non-digit, which the scan then reads. */
  lemma CloseRun(line: string, rowNum: int, parts: seq<PartNumber>, index: int, numStart: int)
    requires ScanState(line, rowNum, parts, index, true, numStart)
    requires index < |line| && !IsDigit(line[index])
    ensures ScanState(line, rowNum, parts + [RunEndingAt(line, rowNum, numStart, index)], index + 1, false, 0)
  {
    AppendRun(line, rowNum, parts, index, numStart);
  }

  lemma ReadDigit(line: string, rowNum: int, parts: seq<PartNumber>, index: int, inRun: bool, numStart: int)
    requires ScanState(line, rowNum, parts, index, inRun, numStart)
    requires index < |line| && IsDigit(line[index])
    ensures ScanState(line, rowNum, parts, index + 1, true, if inRun then numStart else index)
  {
  }

  lemma ReadOther(line: string, rowNum: int, parts: seq<PartNumber>, index: int)
    requires ScanState(line, rowNum, parts, index, false, 0)
    requires index < |line| && !IsDigit(line[index])
    ensures ScanState(line, rowNum, parts, index + 1, false, 0)
  {
  }

  /** A scan that ends outside a run has found every run of the line. */
  lemma ScanDone(line: string, rowNum: int, parts: seq<PartNumber>)
    requires ScanState(line, rowNum, parts, |line|, false, 0)
    ensures forall i :: 0 <= i < |parts| ==> IsRun(line, rowNum, parts[i])
    ensures forall i :: 0 <= i < |parts| - 1 ==> parts[i].endCol + 1 < parts[i + 1].startCol
    ensures forall k :: 0 <= k < |line| && IsDigit(line[k]) ==> Covered(parts, k)
  {
  }

  /** One pass of the loop of `get_part_numbers`: a digit opens a run or extends the
      open one; a non-digit closes the open run, if any, and records it. */
  method ReadChar(line: string, rowNum: int, parts: seq<PartNumber>, index: int, inRun: bool, numStart: int)
    returns (parts': seq<PartNumber>, inRun': bool, numStart': int)
    requires index < |line| && (!inRun ==> numStart == 0)
    requires ScanState(line, rowNum, parts, index, inRun, numStart)
    ensures !inRun' ==> numStart' == 0
    ensures ScanState(line, rowNum, parts', index + 1, inRun', numStart')
    ensures IsDigit(line[index]) <==> inRun'
  {
    if IsDigit(line[index]) {
      ReadDigit(line, rowNum, parts, index, inRun, numStart);
      parts', inRun', numStart' := parts, true, if inRun then numStart else index;
    } else if inRun {
      CloseRun(line, rowNum, parts, index, numStart);
      parts', inRun', numStart' := parts + [RunEndingAt(line, rowNum, numStart, index)], false, 0;
    } else {
      ReadOther(line, rowNum, parts, index);
      parts', inRun', numStart' := parts, false, 0;
    }
  }

  /** `get_part_numbers`: one left-to-right scan that opens a run at a digit after a
      non-digit and closes it at the next non-digit or at the end of the line. The
      result holds one entry per maximal run of digits, left to right. */
  method GetPartNumbers(line: string, rowNum: int) returns (parts: seq<PartNumber>)
    ensures forall i :: 0 <= i < |parts| ==> IsRun(line, rowNum, parts[i])
    ensures forall i :: 0 <= i < |parts| - 1 ==> parts[i].endCol + 1 < parts[i + 1].startCol
    ensures forall k :: 0 <= k < |line| && IsDigit(line[k]) ==> Covered(parts, k)
  {
    parts := [];
    var index := 0;
    var inRun := false;
    var numStart := 0;
    var length := |line|;
    while index < length
      invariant index <= length
      invariant !inRun ==> numStart == 0
      invariant ScanState(line, rowNum, parts, index, inRun, numStart)
    {
      parts, inRun, numStart := ReadChar(line, rowNum, parts, index, inRun, numStart);
      index := index + 1;
    }
    if inRun {
      AppendRun(line, rowNum, parts, index, numStart);
      parts := parts + [RunEndingAt(line, rowNum, numStart, index)];
    } else {
      ScanDone(line, rowNum, parts);
    }
  }

  /** The cells around a part number: the row above and the row below from one column
      left of it to one column right of it, and the cells just left and right of it. */
  predicate InRing(p: PartNumber, row: int, col: int)
  {
    || (row == p.row && (col == p.startCol - 1 || col == p.endCol + 1))
    || ((row == p.row - 1 || row == p.row + 1) && p.startCol - 1 <= col <= p.endCol + 1)
  }

  datatype Cell = Cell(row: int, col: int)

  /** The columns `range(lo, hi)` of the rows above and below, in the source's order. */
  function Band(p: PartNumber, lo: int, hi: int): seq<Cell>
    decreases hi - lo
  {
    if lo >= hi then [] else [Cell(p.row - 1, lo), Cell(p.row + 1, lo)] + Band(p, lo + 1, hi)
  }

  /** The list of cells `valid_part_number` builds, in its order. */
  function Locations(p: PartNumber): seq<Cell>
  {
    [Cell(p.row, p.startCol - 1), Cell(p.row, p.endCol + 1)] + Band(p, p.startCol - 1, p.endCol + 2)
  }

  lemma {:induction false} BandCells(p: PartNumber, lo: int, hi: int, c: Cell)
    ensures c in Band(p, lo, hi) <==> (c.row == p.row - 1 || c.row == p.row + 1) && lo <= c.col < hi
    decreases hi - lo
  {
    if lo < hi {
      BandCells(p, lo + 1, hi, c);
    }
  }

  /** The list covers exactly the ring. */
  lemma LocationsAreRing(p: PartNumber, c: Cell)
    ensures c in Locations(p) <==> InRing(p, c.row, c.col)
  {
    BandCells(p, p.startCol - 1, p.endCol + 2, c);
  }

  predicate SymbolAt(grid: Grid, row: int, col: int)
  {
    WithinGrid(grid, row, col) && row < |grid.rows| && col < |grid.rows[row]| &&
    IsSymbol(grid.rows[row][col])
  }

  /** `valid_part_number`: walk the cells of the ring, skip those outside the grid and
      stop at the first symbol. */
  method ValidPartNumber(grid: Grid, p: PartNumber) returns (valid: bool)
    requires WellFormed(grid)
    ensures valid <==> exists row, col :: InRing(p, row, col) && SymbolAt(grid, row, col)
  {
    var locations := Locations(p);
    var i := 0;
    while i < |locations|
      invariant 0 <= i <= |locations|
      invariant forall k :: 0 <= k < i ==> !SymbolAt(grid, locations[k].row, locations[k].col)
    {
      var row, col := locations[i].row, locations[i].col;
      if !WithinGrid(grid, row, col) {
        i := i + 1;
        continue;
      }
      if IsSymbol(grid.rows[row][col]) {
        LocationsAreRing(p, locations[i]);
        return true;
      }
      i := i + 1;
    }
    forall row, col | InRing(p, row, col) ensures !SymbolAt(grid, row, col) {
      LocationsAreRing(p, Cell(row, col));
      var k :| 0 <= k < |locations| && locations[k] == Cell(row, col);
    }
    return false;
  }
}
