# Advent of Code 2023, days 1–7, in Dafny

A model of the puzzle solvers of days 1 to 7. Each day is one module, and the
shared vocabulary lives in `Common`: sums, products, ASCII digits, and `str.split`
with its inverse `join`.

The centre of the model is day 5.
- `RangeMapping` is the interval pipeline of part two. Seed ranges go through the
  mapping stages. Each rule of a stage, in order, claims and shifts the still-unclaimed
  pieces of the ranges that fall inside its source.
- `PointMapping` is the value-by-value mapping of part one.
- `RangeRefinement` proves that the interval pipeline sends every value of every
  seed range exactly where the pointwise mapping sends it (equal multisets). So, when
  every seed range and every table line has positive length, part two's answer (the
  smallest start) is part one's answer (the smallest value) on the expanded seed
  ranges. An empty seed range, or an empty table line, breaks this (see "Left out").

The other days:
- `Trebuchet` (day 1): first and last digit of a line.
- `CubeGame` (day 2): per-colour maxima, limits and the product. Python
  dictionaries are association lists in insertion order. Counts are integers of
  either sign, as `int()` parses them: a negative count passes its limit, and
  `max(min_counts[color], count)` stores at least 0.
- `Schematic` (day 3): maximal digit runs and the ring of cells around them.
- `Scratchcards` (day 4): match counting and the doubling score.
- `BoatRaces` (day 6): the first and last winning hold time, and the count of
  winners between them.
- `CamelCards` (day 7) has three parts:
  - the hand classifier, proved equal on five-card hands to an independent
    reference defined from the hand's multiset of cards;
  - the comparison operators;
  - the ranking loop.

The code's own behaviour is modelled where it differs from the puzzle text:
- `ranges_overlap` is modelled as written: with a zero-length range it can report an
  overlap. For ranges of positive length it is exactly "the intervals intersect".
- An unwinnable race makes `num_ways_to_win` return `0 - 0 + 1 = 1`.
- Day 2's part two multiplies the maxima of the colours that appear in the game.

## Model

| member | source | states |
|---|---|---|
| `Common.Sum` | day1/day1.py:29-33 | a `total +=` loop over a list; `SumAppend` states that it adds up over concatenation |
| `Common.SumAppend` | day1/day1.py:29-33 | the sum of `xs + ys` is the sum of `xs` plus the sum of `ys` |
| `Common.Product` | day6/day6.py:73-78 | `math.prod`, 1 on the empty list; `ProductAppend` states that it multiplies over concatenation |
| `Common.ProductAppend` | day6/day6.py:73-78 | the product of `xs + ys` is the product of `xs` times the product of `ys` |
| `Common.Split` | day1/day1.py:31 | `str.split` yields at least one piece and no piece contains the separator |
| `Common.JoinSplit` | day1/day1.py:31 | joining the pieces of a split with the separator gives the text back |
| `Common.Join` | day1/day1.py:31 | `sep.join`, the inverse of `str.split`: `JoinSplit` states that it gives back the split text |
| `Common.SplitAtSeparator` | day1/day1.py:31 | splitting `x + sep + y` gives the pieces of `x` followed by the pieces of `y` |
| `Trebuchet.FirstDigit` | day1/day1.py:7-11 | the left scan stops at the first ASCII digit, or at the end when there is none |
| `Trebuchet.LastDigit` | day1/day1.py:16-20 | the right scan stops at the last ASCII digit, or at -1 when there is none |
| `Trebuchet.NumberFromLine` | day1/day1.py:4-26 | a line without a digit gives 0; otherwise the result is ten times the first digit plus the last digit, between 0 and 99 |
| `Trebuchet.Calibration` | day1/day1.py:4-26 | the puzzle's calibration value, at most 99; `NumberFromLine` states that the two scans compute it, and `CalibrationAt` what it is for any first and last digit |
| `Trebuchet.CalibrationAt` | day1/day1.py:4-26 | whatever the line, a first digit at `i` and a last digit at `j` give `10 * line[i] + line[j]` |
| `Trebuchet.SingleDigit` | day1/day1.py:13-26 | a line with a single digit `d` scores `11 * d` |
| `Trebuchet.Examples` | day1/day1.py:4-26 | the puzzle's sample lines score 12, 38, 15 and 77, and the empty line scores 0 |
| `Trebuchet.Lines` | day1/day1.py:31 | `data.split('\n')`; `Common.Split` and `Common.JoinSplit` state what the pieces are |
| `Trebuchet.Scores` | day1/day1.py:29-33 | one score per line, each the line's calibration value |
| `Trebuchet.Solution` | day1/day1.py:29-33 | the sum of the calibration values of the lines; `SolutionSplitsAtNewline`, `TrailingNewline` and `SolutionBounds` state how it adds up |
| `Trebuchet.SolutionSplitsAtNewline` | day1/day1.py:29-33 | the total over `x + "\n" + y` is the total over `x` plus the total over `y` |
| `Trebuchet.TrailingNewline` | day1/day1.py:29-33 | a trailing newline adds an empty line worth 0 |
| `Trebuchet.SolutionBounds` | day1/day1.py:29-33 | the total is between 0 and 99 per line |
| `CubeGame.Limit` | day2/day2.py:6-13 | `LIMITS`: 12 red, 13 green, 14 blue and the `defaultdict` 0 for any other colour; `ValidInputWithinLimits` and `UnknownColorInvalid` state what it decides |
| `CubeGame.Lookup` | day2/day2.py:6-13 | a missing key reads as 0 (defaultdict); a present key reads its stored count |
| `CubeGame.Store` | day2/day2.py:52 | `min_counts[color] = …`; `StoreLookup` states that it sets that colour only and keeps the keys distinct |
| `CubeGame.StoreLookup` | day2/day2.py:23 | storing a colour keeps keys distinct, sets that colour's count and leaves every other colour's count alone |
| `CubeGame.BlockDict` | day2/day2.py:19-23 | the dictionary of a grab has each colour once |
| `CubeGame.BlockDictContents` | day2/day2.py:19-23 | a colour's entry is its last count in the grab, and the keys are exactly the colours drawn |
| `CubeGame.ValidInput` | day2/day2.py:27-31 | a grab is valid iff every entry's count is within its colour's limit |
| `CubeGame.ValidInputWithinLimits` | day2/day2.py:27-31 | validity means every colour's count is within the limits 12 red, 13 green, 14 blue and 0 for any other colour |
| `CubeGame.UnknownColorInvalid` | day2/day2.py:6-13 | a positive count of a colour outside the limit table makes the grab invalid |
| `CubeGame.RaiseAll` | day2/day2.py:51-52 | the inner loop over a grab's entries; `RaiseAllContents` states what it stores |
| `CubeGame.RaiseAllContents` | day2/day2.py:51-52 | raising the minima by a grab gives each colour the grab draws the larger of the two counts, leaves every other colour's count alone, and gives the union of the keys |
| `CubeGame.MinCounts` | day2/day2.py:45-52 | `min_counts` after the loop over the grabs; `MinCountsIsMax` states that it holds the per-colour maxima |
| `CubeGame.MinCountsIsMax` | day2/day2.py:45-52 | `min_counts[c]` is the largest count of `c` over the grabs: at least each grab's count, never below 0, and equal to one of them (or 0), with keys exactly the colours drawn |
| `CubeGame.NonPositiveDrawStoresZero` | day2/day2.py:51-52 | a colour drawn, but only with counts of 0 or less, is a key of `min_counts` with the value 0 |
| `CubeGame.AllValid` | day2/day2.py:46-49 | `valid` after the loop; `AllValidEach` states that it is the conjunction over the grabs |
| `CubeGame.AllValidEach` | day2/day2.py:46-49 | the running `valid &=` is true iff every grab is valid |
| `CubeGame.AllValidIffMaximaWithinLimits` | day2/day2.py:45-52 | every grab is valid iff every colour's maximum is within its limit |
| `CubeGame.Counts` | day2/day2.py:55 | the values of the minima dictionary, in key order |
| `CubeGame.ParseLine` | day2/day2.py:34-57 | `parse_line` on a matched line: the running validity and maxima over the grabs, then the id or the product; `GameScore` states what it returns |
| `CubeGame.GameScore` | day2/day2.py:34-57 | part one gives the id iff every grab is valid, else 0; part two gives the product of the values of `MinCounts`, which `MinCountsIsMax` states are the per-colour maxima |
| `CubeGame.Solution` | day2/day2.py:60-64 | the per-line scores summed; `SolutionAppend` states that it adds up over blocks of lines |
| `CubeGame.SolutionAppend` | day2/day2.py:60-64 | the total over two blocks of lines is the sum of their totals |
| `Schematic.IsSymbol` | day3/day3.py:19-20 | a symbol is any character that is neither a digit nor '.'; `IsSymbolExamples` checks the source's test cases against it |
| `Schematic.WithinGrid` | day3/day3.py:34-35 | a cell is inside the grid iff its row is in `[0, height)` and its column in `[0, width)`; `ValidPartNumber` uses it to skip ring cells outside the grid |
| `Schematic.IsSymbolExamples` | day3/day3.py:20-32 | '.' and the digits are not symbols; `$ # @ * +` are |
| `Schematic.ReadDigit` | day3/day3.py:62-65 | reading a digit opens a run, or extends the open one, and keeps the scan's state |
| `Schematic.ReadOther` | day3/day3.py:66-68 | reading a non-digit outside a run keeps the scan's state |
| `Schematic.ReadChar` | day3/day3.py:60-78 | one pass of the loop keeps the scan's state, and it ends inside a run exactly when it read a digit |
| `Schematic.CloseRun` | day3/day3.py:66-77 | a non-digit after a run records it as a maximal run with its decimal value, and the scan's state holds at the next index |
| `Schematic.AppendRun` | day3/day3.py:80-89 | a run still open at the end of the line is recorded with `end_col = len - 1`, maximal, after the earlier runs |
| `Schematic.GetPartNumbers` | day3/day3.py:55-90 | every entry is a maximal run of digits with its decimal value; entries are left to right with a gap between them; every digit of the line lies in an entry |
| `Schematic.BandCells` | day3/day3.py:158-160 | the loop adds exactly the cells of the rows above and below over the column range |
| `Schematic.LocationsAreRing` | day3/day3.py:153-160 | the location list is exactly the ring around the number |
| `Schematic.ValidPartNumber` | day3/day3.py:142-170 | true iff some in-grid cell of the ring holds a symbol |
| `Scratchcards.CountMatches` | day4/day4.py:45-48 | the number of positions of the card's numbers that hold a winning number, at most the number of numbers |
| `Scratchcards.CountPrefixIsMatches` | day4/day4.py:45-48 | the running count after `i` numbers is the number of match positions among them |
| `Scratchcards.IndexSetBound` | day4/day4.py:45-48 | no card has more matches than numbers |
| `Scratchcards.Score` | day4/day4.py:49-51 | the scoring tail of `get_card_value`; `ScoreIsPower`, `ScoreMonotone` and `ScoreBound` state what it is |
| `Scratchcards.ScoreIsPower` | day4/day4.py:49-51 | the score is 0 without a match and `2^(m-1)` with `m` matches |
| `Scratchcards.ScoreMonotone` | day4/day4.py:49-51 | more matches never score less |
| `Scratchcards.ScoreBound` | day4/day4.py:49-51 | a card of `n` numbers scores at most `2^(n-1)` |
| `Scratchcards.CardValue` | day4/day4.py:43-51 | the value is the score of the match count, and it is 0 iff nothing matches |
| `Scratchcards.Tokens` | day4/day4.py:26-27 | the non-empty pieces of a space split; `NonEmpty`, `NonEmptyCounts`, `KeptInOrder` and `DoubleSpace` state which pieces it keeps |
| `Scratchcards.NonEmpty` | day4/day4.py:26-27 | every kept token is a non-empty piece, and every non-empty piece is kept |
| `Scratchcards.NonEmptyCounts` | day4/day4.py:26-27 | the filter keeps each non-empty piece as often as it occurs and drops every empty one (`multiset(kept) == multiset(parts)["" := 0]`) |
| `Scratchcards.KeptInOrder` | day4/day4.py:26-27 | the kept tokens are the pieces at strictly increasing positions, so the filter keeps their order |
| `Scratchcards.DoubleSpace` | day4/day4.py:26-27 | two spaces in a row tokenise like one |
| `Scratchcards.Total` | day4/day4.py:63-67 | the card scores summed; `TotalAppend` states that it adds up over blocks of cards, and `Solution` that the loop computes it |
| `Scratchcards.TotalAppend` | day4/day4.py:63-67 | the total over `xs + ys` is the total over `xs` plus the total over `ys` |
| `Scratchcards.Solution` | day4/day4.py:63-67 | the sum of the card values |
| `RangeMapping.TotalLength` | day5/day5_part2.py:14-23 | the number of values the ranges cover, with multiplicity; `TotalLengthAppend` states that it adds up over concatenation, and `ApplyTransform`, `SweepRule`, `ApplyMapping` and `RunPipeline` that they keep it |
| `RangeMapping.TotalLengthAppend` | day5/day5_part2.py:14-23 | the total length of `xs + ys` is the total length of `xs` plus that of `ys` |
| `RangeMapping.Overlap` | day5/day5_part2.py:56-57 | for positive lengths, true iff `a.start < b.end && b.start < a.end`; a shared value always means overlap |
| `RangeMapping.OverlapSymmetric` | day5/day5_part2.py:56-57 | the test gives the same answer with its arguments swapped, whatever the lengths |
| `RangeMapping.OverlapMeansSharedValue` | day5/day5_part2.py:56-67 | for positive lengths the test holds iff the ranges share a value |
| `RangeMapping.Intersect` | day5/day5_part2.py:70-74 | starts at the larger start, ends at the smaller end, and holds exactly the values in both |
| `RangeMapping.ApplyTransform` | day5/day5_part2.py:114-135 | no overlap returns the input unchanged; otherwise at most two positive remainders, with moved length plus remainder lengths equal to the input length |
| `RangeMapping.TransformSplitsInput` | day5/day5_part2.py:117-133 | the moved range is the intersection shifted by the offset; the remainders hold exactly the input values outside the source, lower before upper |
| `RangeMapping.TransformExamplesUnchanged` | day5/day5_part2.py:138-143 | a rule far from the input, and a rule that only touches its end, leave `[0, 10)` unchanged |
| `RangeMapping.TransformExampleLower` | day5/day5_part2.py:146-148 | `[0, 11)` under a rule on `[10, 13)` moves `[10, 11)` to 110 and leaves the lower remainder `[0, 10)` |
| `RangeMapping.TransformExampleBoth` | day5/day5_part2.py:156-160 | `[0, 11)` under a rule on `[5, 7)` moves that piece to 105 and leaves `[0, 5)` then `[7, 11)` |
| `RangeMapping.SweepRule` | day5/day5_part2.py:221-230 | one rule over all current ranges conserves the total length |
| `RangeMapping.SweepLoop` | day5/day5_part2.py:221-230 | the inner loop over `current_ranges` computes the sweep and conserves total length |
| `RangeMapping.ApplyMapping` | day5/day5_part2.py:215-235 | a stage conserves the total length, keeps lengths positive and never yields fewer ranges |
| `RangeMapping.ApplyMappingLoop` | day5/day5_part2.py:215-235 | the loop of `apply_mapping` computes the stage and conserves total length |
| `RangeMapping.SweepUntouched` | day5/day5_part2.py:221-230 | a rule that overlaps none of the ranges claims nothing and leaves them all unclaimed, in order |
| `RangeMapping.MappingUntouched` | day5/day5_part2.py:215-235 | a stage none of whose rules overlaps the ranges returns them unchanged |
| `RangeMapping.MappingExampleSecondStage` | day5/day5_part2.py:245-253 | the second stage of `test_apply_mapping` leaves `[81, 95)` and `[57, 70)` as they are |
| `RangeMapping.RunPipeline` | day5/day5_part2.py:268-272 | the stages in order conserve the total length |
| `RangeMapping.MinStart` | day5/day5_part2.py:276 | the smallest start among the ranges |
| `RangeMapping.Solution` | day5/day5_part2.py:268-276 | part two's answer: the smallest start after all stages; `PartTwoIsPartOneOnExpandedSeeds` states what it equals |
| `RangeMapping.RuleOf` | day5/day5_part2.py:194-198 | the rule's offset sends each source value `v` to `dest + (v - source)` |
| `RangeMapping.SeedRanges` | day5/day5_part2.py:172-173 | the seed numbers are read pairwise as (start, length) |
| `PointMapping.MapValue` | day5/day5.py:57-69 | the inner loop of `apply_mapping` for one value; `MapValueFirstMatch` and `MapValueNoMatch` state where the value goes |
| `PointMapping.MapValueFirstMatch` | day5/day5.py:59-68 | a value goes to `dest + (v - source)` of the first rule covering it; later rules are ignored |
| `PointMapping.MapValueNoMatch` | day5/day5.py:57-69 | a value no rule covers is unchanged |
| `PointMapping.ApplyMapping` | day5/day5.py:55-71 | one output per input value |
| `PointMapping.ApplyMappingPointwise` | day5/day5.py:55-71 | each output is the mapped input value at the same position |
| `PointMapping.ApplyMappingAppend` | day5/day5.py:55-71 | mapping `xs + ys` is mapping `xs` then mapping `ys` |
| `PointMapping.EmptyStageIsIdentity` | day5/day5.py:58-69 | a stage without rules returns the values unchanged |
| `PointMapping.ApplyMappingPermutation` | day5/day5.py:55-71 | reordered input values give reordered outputs |
| `PointMapping.RunStages` | day5/day5.py:89-91 | the stages in order keep the number of values |
| `PointMapping.RunStagesPermutation` | day5/day5.py:89-91 | reordered seeds give reordered final values |
| `PointMapping.MinValue` | day5/day5.py:93 | `min` is an element no larger than any other |
| `PointMapping.MinValuePermutation` | day5/day5.py:93 | the minimum does not depend on the order |
| `PointMapping.Solution` | day5/day5.py:86-93 | the least final value over all seeds |
| `RangeRefinement.Rules` | day5/day5_part2.py:186-200 | each table line becomes a rule with source `[source_start, +range)` and offset `dest - source` |
| `RangeRefinement.StageRules` | day5/day5_part2.py:268-272 | one list of rules per table, in order, each built by `Rules` |
| `RangeRefinement.ValuesShift` | day5/day5_part2.py:130-132 | shifting a range's start shifts each of its values |
| `RangeRefinement.RemainderValues` | day5/day5_part2.py:122-127 | the non-empty remainders hold the lower values then the upper values |
| `RangeRefinement.TransformValues` | day5/day5_part2.py:114-135 | the moved range holds the input's values inside the source, shifted; the remainders hold the values outside it |
| `RangeRefinement.SweepValues` | day5/day5_part2.py:221-230 | one rule over the current ranges moves exactly the values inside its source and leaves the others unclaimed |
| `RangeRefinement.StageMatchesPointwise` | day5/day5_part2.py:215-235 | one stage on ranges sends the values exactly where day 5 part one's `apply_mapping` sends them (as multisets) |
| `RangeRefinement.StageConservesValues` | day5/day5_part2.py:215-235 | a stage keeps the number of values |
| `RangeRefinement.PipelineMatchesPointwise` | day5/day5_part2.py:268-272 | the whole pipeline on ranges agrees with the pointwise stages on the expanded values |
| `RangeRefinement.MinStartIsMinValue` | day5/day5_part2.py:276 | the smallest start of positive ranges is the smallest of their values |
| `RangeRefinement.PartTwoIsPartOneOnExpandedSeeds` | day5/day5_part2.py:268-276 | when every seed range and table line has positive length, part two's answer equals part one's answer on the expanded seed ranges |
| `RangeRefinement.EmptySeedRangeDiverges` | day5/day5_part2.py:276 | with the seed ranges `[3, +0)` and `[10, +5)` and no stages, part two answers 3 while part one on the expanded seeds answers 10 |
| `RangeRefinement.ZeroLengthRuleTransform` | day5/day5_part2.py:114-135 | a table line of range 0 whose source start lies in the input still transforms it: the moved piece is the empty range at the line's destination, and the remainders start at the input's start or above, the first one at it |
| `RangeRefinement.ZeroLengthRulePipeline` | day5/day5_part2.py:215-235 | the stage made of that one line returns the empty range at the line's destination, followed by the remainders of the seed range |
| `RangeRefinement.ZeroLengthRuleMinStart` | day5/day5_part2.py:268-276 | part two's answer on that one-stage pipeline is the smaller of the destination and the seed range's start |
| `RangeRefinement.ZeroLengthRulePointwise` | day5/day5.py:55-93 | part one ignores a table line of range 0 and answers the seed range's start |
| `RangeRefinement.ZeroLengthRuleDiverges` | day5/day5_part2.py:268-276 | with a table line `d s 0` whose `s` lies in the seed range, part two answers the smaller of `d` and the seed range's start while part one answers the start |
| `BoatRaces.Distance` | day6/day6.py:35 | `time * (time_limit - time)`; `Symmetric` and `Contiguous` state the shape of the winners it gives |
| `BoatRaces.MinWaitingTime` | day6/day6.py:32-40 | the least hold time in `[1, T)` that beats the record, or 0 when none does |
| `BoatRaces.MaxWaitingTime` | day6/day6.py:48-56 | the greatest hold time in `[1, T)` that beats the record, or 0 when none does |
| `BoatRaces.Symmetric` | day6/day6.py:35 | holding `t` and holding `T - t` go the same distance |
| `BoatRaces.Contiguous` | day6/day6.py:35 | every hold time between two winning ones also wins |
| `BoatRaces.MinMaxMirror` | day6/day6.py:32-56 | the first and last winners satisfy `min <= max` and `min + max == T` |
| `BoatRaces.WinningInterval` | day6/day6.py:64-65 | the winners are exactly `[min, max]`, so there are `max - min + 1` of them |
| `BoatRaces.NumWaysToWin` | day6/day6.py:64-65 | the number of winning hold times, or 1 for a race that cannot be won |
| `BoatRaces.Ways` | day6/day6.py:64-65 | what `num_ways_to_win` returns, stated without the searches; `NumWaysToWin` states that the searches compute it and `WinningInterval` that it counts `[min, max]` |
| `BoatRaces.AllWays` | day6/day6.py:76-77 | one number of ways per race, in order |
| `BoatRaces.Solution` | day6/day6.py:73-78 | the product of the ways to win the races |
| `BoatRaces.ExampleRaces` | day6/day6.py:43-70 | 7 ms against record 9 is won by holding 2 to 5 and not 1 or 6; against record 10 by holding 3 or 4 and not 2 or 5; so the searches return 2/5 and 3/4, and there are 4 and 2 ways |
| `CamelCards.Strength` | day7/day7.py:9-16 | the enum values run from 1 to 7 |
| `CamelCards.StrengthInjective` | day7/day7.py:18-19 | comparing enum values compares types |
| `CamelCards.CardValue` | day7/day7.py:23-54 | `CARD_VALUES[c]` for the active table: 2 to 14 in part one, 1 to 13 in part two; `CardTables` lists the whole table |
| `CamelCards.CardTables` | day7/day7.py:23-54 | part one values `23456789TJQKA` as 2 to 14; part two values `J23456789TQKA` as 1 to 13 |
| `CamelCards.CardValueInjective` | day7/day7.py:23-54 | different cards have different values in both tables |
| `CamelCards.JokerIsLowest` | day7/day7.py:39-54 | in part two 'J' is below every other card |
| `CamelCards.Bump` | day7/day7.py:90 | counting a card adds one to its count only, keeps keys distinct and lists it |
| `CamelCards.CountCards` | day7/day7.py:90 | `Counter`: each card once, with its number of occurrences |
| `CamelCards.NumsShape` | day7/day7.py:91-99 | the counts the loop looks at are positive, one per non-joker card, and add up with the jokers to all the counts |
| `CamelCards.CountsAddUp` | day7/day7.py:90 | the counts add up to the number of cards |
| `CamelCards.SortDesc` | day7/day7.py:92-94 | the counts sorted in descending order, as a permutation |
| `CamelCards.SortedCountsShape` | day7/day7.py:90-99 | the sorted counts the loop reads are positive, one per distinct non-joker card, and with the jokers add up to the hand size |
| `CamelCards.LargestCount` | day7/day7.py:92-97 | the first sorted count is the most copies of any non-joker card |
| `CamelCards.Scan` | day7/day7.py:97-119 | the loop over the sorted counts with its breaks; `CountShapes` and `ShapeClassifies` state what it returns on every count shape |
| `CamelCards.Upgrade` | day7/day7.py:123-150 | the joker block; `ShapeClassifies`, `FourJokersMakeFive` and `JokersImprove` state what it does |
| `CamelCards.HandTypeOf` | day7/day7.py:89-150 | the type `_calculate_hand_type` leaves; `HandTypeMatchesReference` states which type it is on five cards, and `PermutationInvariant` that it depends only on the multiset of cards |
| `CamelCards.CountShapes` | day7/day7.py:97-119 | without jokers: 5 is five of a kind, 4+1 four, 3+2 full house, 3+1+1 three, 2+2+1 two pair, 2+1+1+1 one pair, all distinct high card |
| `CamelCards.ShapeClassifies` | day7/day7.py:97-150 | for every sorted list of counts of five cards, the loop plus the joker block give the reference type, and jokers strictly raise the type |
| `CamelCards.HandTypeMatchesReference` | day7/day7.py:89-150 | a five-card hand's type is the reference type: the largest count of a non-joker card plus the jokers, and the number of distinct non-joker cards, decide it |
| `CamelCards.CalculateHandType` | day7/day7.py:89-150 | the loop with its breaks computes the hand type, which is the reference type for five cards |
| `CamelCards.PermutationInvariant` | day7/day7.py:89-94 | reordering a hand, of any size, does not change its type: `Counter` and the sort see only the multiset of cards |
| `CamelCards.SameCountsSameNums` | day7/day7.py:90-92 | two tallies with the same count for every card give the same multiset of counts to the loop |
| `CamelCards.SortedUnique` | day7/day7.py:92-94 | two descending lists of counts with the same elements are the same list |
| `CamelCards.FourJokersMakeFive` | day7/day7.py:125-127 | in part two four or five jokers give five of a kind |
| `CamelCards.JokersImprove` | day7/day7.py:123-150 | in part two a five-card hand with a joker is of a strictly higher type than its other cards alone |
| `CamelCards.SixCardsJokersLower` | day7/day7.py:123-139 | with six cards, four copies of one card plus two jokers are four of a kind before the joker block and three of a kind after it |
| `CamelCards.NoJokerSameType` | day7/day7.py:97-99 | without a 'J' the two parts give the same type |
| `CamelCards.MakeHand` | day7/day7.py:80-87 | `Hand(cards, bid)` with its type computed when it is made; `EqualIffSameCards` states when two made hands are equal |
| `CamelCards.FirstDifference` | day7/day7.py:161-163 | the first position where the zipped card values differ, or the shorter length |
| `CamelCards.CardLoopLess` | day7/day7.py:161-165 | the zipped loop returns the comparison at the first differing value, and false when there is none |
| `CamelCards.CardLoops` | day7/day7.py:161-195 | the card loops of `<`, `>` and `==` decide at the first difference, and `==` holds when there is none |
| `CamelCards.Less` | day7/day7.py:154-165 | `__lt__`: type first, then the zipped card loop; `LessIsLexicographic` states the order it defines |
| `CamelCards.Greater` | day7/day7.py:170-181 | `__gt__`: type first, then the zipped card loop; `GreaterIsConverse` states it is `<` swapped |
| `CamelCards.Equal` | day7/day7.py:186-195 | `__eq__`: same type and no differing card value in the zip; `EqualIffSameCards` and `Trichotomy` state what it means |
| `CamelCards.AtLeast` | day7/day7.py:167-168 | `__ge__`, `not self < other`; `AtLeastAtMost` states that it is "greater or equal" |
| `CamelCards.AtMost` | day7/day7.py:183-184 | `__le__`, `not self > other`; `AtLeastAtMost` states that it is "less or equal" |
| `CamelCards.LessIsLexicographic` | day7/day7.py:154-165 | `<` orders by type, then lexicographically by card value |
| `CamelCards.GreaterIsConverse` | day7/day7.py:154-181 | `a > b` iff `b < a` |
| `CamelCards.LessAsymmetric` | day7/day7.py:154-165 | no two hands are each below the other |
| `CamelCards.Trichotomy` | day7/day7.py:154-195 | exactly one of `<`, `==`, `>` holds |
| `CamelCards.AtLeastAtMost` | day7/day7.py:167-184 | `>=` is "greater or equal" and `<=` is "less or equal" |
| `CamelCards.EqualIffSameCards` | day7/day7.py:186-195 | hands of equal length are equal iff their cards are, whatever the bids |
| `CamelCards.LessThan` | day7/day7.py:154-165 | the loop of `__lt__` computes `<`, which is asymmetric |
| `CamelCards.Ranks` | day7/day7.py:273-279 | ranks start at 1, never decrease, and rank `i` is at most `i + 1` |
| `CamelCards.RankSteps` | day7/day7.py:276-278 | neighbours share a rank iff they are equal, otherwise the rank goes up by one |
| `CamelCards.StrictRanks` | day7/day7.py:273-279 | on a strictly increasing list the ranks are 1, 2, 3, ... |
| `CamelCards.Payout` | day7/day7.py:273-279 | rank times bid, summed; `StrictWinnings` states what it is without ties |
| `CamelCards.Winnings` | day7/day7.py:273-280 | the payout of the ranks; `TotalWinnings` states that the ranking loop computes it, and `StrictWinnings` that without ties it weights the bids by position |
| `CamelCards.StrictWinnings` | day7/day7.py:273-280 | without ties the winnings are the bids weighted by position |
| `CamelCards.TotalWinnings` | day7/day7.py:273-280 | the ranking loop sums rank times bid over the sorted hands |

## Left out

- Reading input files, `argparse`, `main` and every `print` are not modelled. Puzzle
  text reaches the model as already-parsed values: regular-expression matches and
  `int()` conversions are left out. Day 2's failed line match is kept as `NoMatch`,
  which scores 0.
- Day 4's `parse_line` unpacking of `split("|")`, and its regex failure branch, are
  left out. The model keeps the token filtering of the two halves.
- Day 3's `only_valid_part_numbers` is left out: it calls `valid_part_number` with one
  argument instead of two, so it cannot run. Day 3's `solution` is left out: it
  returns 0 without doing anything.
- Day 3's `str.isdigit` is modelled on ASCII digits only. Other Unicode digits are
  left out.
- Day 1's `right_digit < 0` branch is not modelled separately: after a digit has been
  found from the left, the right scan always finds one. `NumberFromLine` carries the
  invariant that shows this.
- Day 5 range lengths, and the rule lengths of a stage, are required to be at least 0.
  The code never builds negative lengths, and with them total length would not be
  conserved.
- The day 5 text parsers `get_starting_values`, `get_starting_ranges` and
  `parse_mapping` are left out. Their conversions are modelled by `SeedRanges`, `RuleOf`
  and `RangeRefinement.Rules`.
- `Range`'s comparison operators are left out. `min(current_ranges)` is modelled as
  the smallest start (`MinStart`).
- `min` of an empty list raises, so both day 5 solutions require at least one seed.
- `RangeRefinement.PartTwoIsPartOneOnExpandedSeeds` requires every seed range and
  every table line to have positive length, because the source diverges on both.
  A zero-length seed range holds no value, but `min(current_ranges).start` still
  reads its start, so part two can answer a number that no seed reaches
  (`EmptySeedRangeDiverges`). A table line `d s 0` whose `s` lies inside a seed range
  still passes `ranges_overlap` (`a.start <= b.start < a.end`), so `apply_transform`
  moves an empty piece to `d` and part two can answer `d`; part one never matches a
  line of range 0 (`ZeroLengthRuleDiverges`).
- The upper-remainder case of `test_apply_transform` and the first and third stages of
  `test_apply_mapping` are not restated as examples. `TransformSplitsInput`,
  `SweepValues` and `StageMatchesPointwise` cover those cases for all inputs.
- `RangeMapping.SeedRanges` requires an even count of seed numbers. On an odd count
  the source raises `IndexError` at `values[i + 1]`; that error path is not modelled.
- `Schematic.ValidPartNumber` requires a well-formed grid (`height` rows, each
  `width` long). On a shorter row the source raises `IndexError` at
  `grid.rows[row][col]`; that error path is not modelled.
- Day 7's `parse_input` and `hands.sort()` (the library sort) are left out.
  `TotalWinnings` takes the hands already sorted.
- Day 7's `solution` requires at least one hand, because it reads `hands[0]`.
- Day 7's `Counter` entries are sorted together with their card as a tie-break. The
  model sorts the counts alone, because the loop's result depends only on the
  sequence of counts.
- A card outside the value tables makes a day 7 comparison raise `KeyError`. The
  comparisons require valid cards.
- `CamelCards.HandTypeMatchesReference` and `CamelCards.JokersImprove` are stated for
  five-card hands, the puzzle's hand size. For other sizes the joker block does not
  follow the reference: `"2222JJ"` is four of a kind without its jokers but three of a
  kind with them (`SixCardsJokersLower`).
- `CamelCards.FourJokersMakeFive` and `CamelCards.NoJokerSameType` hold for hands of
  any size.
