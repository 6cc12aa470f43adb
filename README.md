# Advent of Code 2024, days 1 to 10, in Dafny

This project models the library code of ten Advent of Code 2024 puzzle
solutions (`day1/src/lib.rs` to `day10/src/lib.rs`) and proves what each
one computes.

- `text.dfy` (module `Text`) holds the string handling the days share:
  - `str::lines`, `split` and `trim`;
  - decimal parsing (`str::parse`) and printing;
  - counting and concatenation helpers.
- `dayN.dfy` (module `DayN`) models `dayN/src/lib.rs`.
- `day6_walks.dfy` (`Day6Walks`) holds the guard's walk and the obstruction search of day 6.
- `day10_scores.dfy` (`Day10Scores`) holds the trail search of day 10.

Where the Rust code is a loop over mutable locals, the model is a `method`
with a loop and its invariants. Its `ensures` ties the result to a recursive
specification function, and lemmas state what that function means.
Day 9's file system, whose methods update its slots in place, is a class
with those fields and `modifies` clauses. Day 5's bubble sort swaps the
pages of an array.

Parsing and pure helpers are functions.
The puzzle examples from the Rust test modules are stated as lemmas
wherever the proof stays small.

A call to `unwrap()` or an index that can panic is modelled in one of two ways:
- as an `Option` result, where the failing input is reachable from the puzzle text;
- as a `requires`, where it is a condition on a value the program itself built.

The README lines below cite the Rust sources by path and line. A row that
says "definition, no contract of its own" names a reference function: its
meaning is stated by the lemmas and methods in the rows next to it.

## Model

| member | source | states |
|---|---|---|
| Day1.ReadLineOfStrings | day1/src/lib.rs:61-67 | a line with no space, or one that starts with a space and so has an empty first field, gives no numbers: the source's `unwrap` panics there |
| Day1.Spaces | day1/src/lib.rs:61-64 | the gap between the two numbers: n blanks, all whitespace |
| Day1.ReadLineOfWrittenNumbers | day1/src/lib.rs:61-67 | a line written as two numbers separated by at least one blank is read back as exactly those two numbers |
| Day1.ReadAll | day1/src/lib.rs:37-41 | the lines are read only when every line parses; the result then holds, line by line, the pair that line parses to |
| Day1.Firsts | day1/src/lib.rs:39 | the left column: the first number of every pair, in order |
| Day1.Seconds | day1/src/lib.rs:40 | the right column: the second number of every pair, in order |
| Day1.Insert | day1/src/lib.rs:43-44 | inserting into a sorted list gives a sorted list holding one more copy of the value and nothing else new |
| Day1.LowerBoundKept | day1/src/lib.rs:43-44 | a lower bound of a list and of the inserted value bounds every element of the result |
| Day1.Sort | day1/src/lib.rs:43-44 | `sort()` returns a sorted permutation of its input |
| Day1.SantasListsOf | day1/src/lib.rs:32-49 | there are lists exactly when the input has lines and all of them parse (the `unwrap`s and `left_list[0]` do not panic); both lists are sorted, equally long, and permutations of the two columns |
| Day1.ReadColumns | day1/src/lib.rs:37-41 | the push loop collects the left and right columns in input order, and fails exactly when some line does not parse |
| Day1.CreateSantasLists | day1/src/lib.rs:32-49 | the method builds the lists `SantasListsOf` specifies |
| Day1.Distance | day1/src/lib.rs:5-9 | definition, no contract of its own: the sum of the absolute differences of the i-th elements |
| Day1.DistanceZeroIffEqual | day1/src/lib.rs:5-9 | the total distance is never negative, and it is zero exactly when the two lists are equal |
| Day1.DistanceSymmetric | day1/src/lib.rs:5-9 | the total distance does not depend on which list is on the left |
| Day1.SumOfDistances | day1/src/lib.rs:5-9 | the summing loop computes the sum of the absolute pairwise differences |
| Day1.CalculateDistanceBetweenLists | day1/src/lib.rs:1-12 | defined exactly when the lists can be built; it is then the non-negative distance between the sorted lists |
| Day1.DistanceExample | day1/src/lib.rs:73-85 | the puzzle example's sorted lists are 11 apart |
| Day1.Similarity | day1/src/lib.rs:14-30 | definition, no contract of its own: every left number times the number of its occurrences in the right list, summed |
| Day1.CountIsMultiplicity | day1/src/lib.rs:20-25 | the inner counting loop counts the multiplicity of the element in the right list |
| Day1.SimilarityOfPermutedRight | day1/src/lib.rs:18-27 | similarity does not change when the right list is reordered |
| Day1.SimilarityMoveToEnd | day1/src/lib.rs:18-27 | moving one element of the left list to the end does not change the similarity |
| Day1.PermutationWithout | day1/src/lib.rs:43-44 | removing the same element from two permutations of each other leaves permutations |
| Day1.SimilarityOfPermutedLeft | day1/src/lib.rs:18-27 | similarity does not change when the left list is reordered, so sorting does not affect it |
| Day1.SumOfSimilarities | day1/src/lib.rs:18-27 | the nested loops compute the sum of each left element times its count in the right list |
| Day1.CalculateSimilarityBetweenLists | day1/src/lib.rs:14-30 | defined exactly when the lists can be built; it is then the similarity of the unsorted columns as read |
| Day1.SimilarityExample | day1/src/lib.rs:87-99 | the puzzle example's similarity is 31 |
| Day2.ParseFields | day2/src/lib.rs:10-15 | `filter_map` keeps at most one number per field |
| Day2.ReadLineOfStrings | day2/src/lib.rs:10-15 | at most one number per space-separated field; a line without a space is a single field and gives its number, or nothing when it is not a number |
| Day2.Fields | day2/src/lib.rs:10-15 | writing levels gives one decimal field per level |
| Day2.ParseFieldsDropsOthers | day2/src/lib.rs:13 | a field that is not a number is dropped without a trace |
| Day2.ParseFieldsOfFields | day2/src/lib.rs:10-15 | parsing the written fields gives back the levels |
| Day2.ReadLineOfWrittenReport | day2/src/lib.rs:10-15 | a report written with single blanks is read back unchanged |
| Day2.CreateReports | day2/src/lib.rs:17-26 | one report per input line, each the numbers of that line |
| Day2.IsReportSafeStrict | day2/src/lib.rs:126-148 | true exactly when every adjacent pair goes in the given direction and differs by 1 to 3 |
| Day2.PairOk | day2/src/lib.rs:132-144 | definition, no contract of its own: an adjacent pair that does not go against the direction and differs by 1 to 3 |
| Day2.StrictSafe | day2/src/lib.rs:126-148 | definition, no contract of its own: every adjacent pair of the report is acceptable |
| Day2.Rises | day2/src/lib.rs:60-62 | definition, no contract of its own: the number of rising adjacent pairs |
| Day2.Falls | day2/src/lib.rs:63-65 | definition, no contract of its own: the number of falling adjacent pairs |
| Day2.Ascending | day2/src/lib.rs:72 | definition, no contract of its own: ascending exactly when rising pairs strictly outnumber falling ones, so a tie counts as descending |
| Day2.PairFlags | day2/src/lib.rs:80-98 | a pair raises no flag exactly when it is in order and 1 to 3 apart; every flag names one of the pair's two indices |
| Day2.BadIndices | day2/src/lib.rs:74-101 | every flagged index lies within the levels scanned |
| Day2.NoBadIndicesIffPairsOk | day2/src/lib.rs:74-105 | no index is flagged exactly when every adjacent pair is acceptable |
| Day2.BadPairsAreFlagged | day2/src/lib.rs:83-98 | both indices of an unacceptable pair are flagged |
| Day2.BadPairFlagged | day2/src/lib.rs:83-98 | a pair that goes against the direction or differs by other than 1 to 3 pushes both of its indices |
| Day2.BadPairCount | day2/src/lib.rs:75-101 | definition, no contract of its own: the number of unacceptable adjacent pairs before position n |
| Day2.RemoveAt | day2/src/lib.rs:115-116 | `remove` drops one level and shifts the later ones down |
| Day2.ReportSafe | day2/src/lib.rs:42-124 | definition, no contract of its own: what `is_report_safe` answers: safe with at most one level or no flagged level, unsafe with more than four flags, and otherwise safe when removing one flagged level leaves the report strictly safe in the majority direction |
| Day2.ReportSafeMeaning | day2/src/lib.rs:42-124 | a report that is strictly safe in its majority direction is safe; a safe report of two or more levels is strictly safe as it is or with one level removed |
| Day2.BadIndicesLength | day2/src/lib.rs:74-101 | each bad pair adds two to four flags |
| Day2.ThreeBadPairsAreUnsafe | day2/src/lib.rs:107-109 | a report with three bad pairs is rejected outright |
| Day2.CountDirections | day2/src/lib.rs:48-69 | the first loop counts the rises and the falls, at most one per adjacent pair |
| Day2.FlagBadIndices | day2/src/lib.rs:74-101 | the flag loop produces the flagged indices, and none exactly when the report is strictly safe |
| Day2.TryRemovals | day2/src/lib.rs:114-123 | true exactly when removing some flagged level leaves a strictly safe report |
| Day2.IsReportSafe | day2/src/lib.rs:42-124 | the method decides `ReportSafe`: short reports are safe; no flag means safe; more than four flags means unsafe; otherwise one of the flagged removals must work |
| Day2.SafeCount | day2/src/lib.rs:28-40 | at most one count per report |
| Day2.SafeCountIsSafePositions | day2/src/lib.rs:28-40 | the count is the number of reports judged safe |
| Day2.ReadReports | day2/src/lib.rs:28-40 | the loop counts the safe reports |
| Day2.GetAmountOfSafeReports | day2/src/lib.rs:1-8 | the answer is the number of safe reports among the parsed lines, at most the number of lines |
| Day2.ExampleLastLevelRemoved | day2/src/lib.rs:226-233 | `9 8 7 6 1` is safe once its last level is removed |
| Day2.ExampleOneRemovalMissed | day2/src/lib.rs:107-109 | `1 2 3 10 4 5` is judged unsafe because its two bad pairs raise more than four flags |
| Day2.ExampleRemovalMends | day2/src/lib.rs:114-123 | yet removing the `10` would leave a strictly ascending safe report |
| Day3.Mul | day3/src/lib.rs:3-5 | a zero factor gives zero; positive factors give a product at least as large as either |
| Day3.FindFrom | day3/src/lib.rs:27 | the first occurrence at or after a start index, or none when there is none |
| Day3.OccursAt | day3/src/lib.rs:27 | definition, no contract of its own: the pattern occurs in the text at the index |
| Day3.MatchesInside | day3/src/lib.rs:18-33 | definition, no contract of its own: what the scan needs of a pattern search, namely that a match it reports is a non-empty piece of the text searched |
| Day3.FindSubstring | day3/src/lib.rs:27 | `str::find`: the first occurrence of the pattern, and None exactly when it does not occur |
| Day3.Shift | day3/src/lib.rs:27 | re-basing matches found in a suffix moves each one by the suffix's offset |
| Day3.Texts | day3/src/lib.rs:26 | the texts of the matches, in order |
| Day3.Scan | day3/src/lib.rs:18-33 | definition, no contract of its own: the matches of the scan with their positions: the first match, then the matches of the text after it |
| Day3.LieIn | day3/src/lib.rs:27 | definition, no contract of its own: every match lies in the text where its position says |
| Day3.InOrder | day3/src/lib.rs:27 | definition, no contract of its own: every match starts after the end of the previous one |
| Day3.ShiftLieIn | day3/src/lib.rs:27 | matches found in the rest of the input lie in the whole input once moved by the rest's offset |
| Day3.ConsLieInOrder | day3/src/lib.rs:25-27 | a match that ends before the rest begins, in front of the rest's matches, keeps them in order |
| Day3.TextsOfShifted | day3/src/lib.rs:26-27 | moving matches does not change their texts |
| Day3.ScanInOrder | day3/src/lib.rs:18-33 | every pattern found lies in the input where it is said to be, and the patterns come in input order without overlapping |
| Day3.ScanTexts | day3/src/lib.rs:22-30 | the first pattern found is followed by the patterns of the rest of the input after its first occurrence |
| Day3.ScanStep | day3/src/lib.rs:25-27 | one turn of the loop: record the pattern and cut the input just past its first occurrence |
| Day3.FindAllPatterns | day3/src/lib.rs:18-33 | the loop collects the texts of the scan, in order |
| Day3.DigitsHaveNoPunctuation | day3/src/lib.rs:58-62 | a number contains none of the characters the argument reader searches for |
| Day3.MulArguments | day3/src/lib.rs:58-62 | definition, no contract of its own: the digits between `(` and `,` and those between `,` and `)` parsed as numbers; none where a `find` or a `parse` unwraps a failure or a slice starts after its end |
| Day3.MulText | day3/src/lib.rs:8 | definition, no contract of its own: the text `mul(a,b)` of two numbers in decimal |
| Day3.MulArgumentsFrom | day3/src/lib.rs:58-62 | a text whose first `(`, `,` and `)` sit in that order and whose two slices between them parse has those two numbers as its arguments |
| Day3.MulArgumentsOfShape | day3/src/lib.rs:58-62 | in `mul(` a `,` b `)` with a and b free of punctuation, the three `find`s land where the punctuation was written and the arguments are what a and b parse as |
| Day3.MulArgumentsOfMulText | day3/src/lib.rs:58-62 | reading the arguments of `mul(a,b)` gives back a and b |
| Day3.ActiveAfterIsEnabled | day3/src/lib.rs:42-54 | after the patterns, multiplication is active exactly when no `don't()` came after the last `do()` |
| Day3.ActiveAfter | day3/src/lib.rs:42-54 | definition, no contract of its own: the switch after the patterns: on at the start, `do()` switches it on, `don't()` switches it off when it is on |
| Day3.EnabledAt | day3/src/lib.rs:42-54 | definition, no contract of its own: every `don't()` among the first n patterns is followed by a `do()` among them |
| Day3.TotalWith | day3/src/lib.rs:35-68 | definition, no contract of its own: the loop's sum over the patterns with each `mul` text read by a given reader; none once an active `mul` text does not read |
| Day3.Total | day3/src/lib.rs:35-68 | definition, no contract of its own: the sum of the enabled products, each `mul` text read by the argument reader; none when an enabled one does not read |
| Day3.TotalStaysNone | day3/src/lib.rs:58-62 | once an active pattern has unreadable arguments, the whole sum fails |
| Day3.SumEnabledMultiplications | day3/src/lib.rs:37-65 | the loop over the patterns computes the specified sum of the enabled products |
| Day3.CalculateResultOfMultiplications | day3/src/lib.rs:35-68 | the answer is that sum over the patterns the scan finds |
| Day3.TextsOf | day3/src/lib.rs:8 | each instruction is spelled as the regular expression matches it |
| Day3.Spelling | day3/src/lib.rs:8 | definition, no contract of its own: an instruction spelled as the regular expression matches it: `do()`, `don't()` or `mul(a,b)` |
| Day3.ReadsMulTexts | day3/src/lib.rs:58-62 | definition, no contract of its own: a reader that gives back the two numbers of every `mul(a,b)` text |
| Day3.MulArgumentsReadsMulTexts | day3/src/lib.rs:58-62 | the argument reader reads every spelled `mul` back, and no other reading is needed |
| Day3.TotalOfMulPattern | day3/src/lib.rs:46-64 | a `mul` adds its product exactly when multiplication is active |
| Day3.TotalOfSwitch | day3/src/lib.rs:42-51 | `do()` and `don't()` add nothing |
| Day3.ActiveAfterAppend | day3/src/lib.rs:42-54 | `do()` switches on, `don't()` switches off, anything else keeps the switch |
| Day3.TotalOfOne | day3/src/lib.rs:40-65 | the sum grows by one instruction's product when it is an active `mul` |
| Day3.ActiveOfOne | day3/src/lib.rs:42-54 | the switch after one more instruction |
| Day3.FinalActive | day3/src/lib.rs:42-54 | definition, no contract of its own: the switch after the instructions, read from the front |
| Day3.Value | day3/src/lib.rs:35-68 | definition, no contract of its own: the reference reading of an instruction list, the products of the multiplications met while `do()` and `don't()` leave multiplying on |
| Day3.ValueOfAppend | day3/src/lib.rs:40-65 | the reference meaning of an instruction list grows the same way |
| Day3.TotalWithIsValue | day3/src/lib.rs:35-68 | the sum over the spelled instructions equals their reference meaning: the products of the `mul`s not disabled by a `don't()` |
| Day3.TotalIsValue | day3/src/lib.rs:35-68 | the same with the real argument reader |
| Day3.Example | day3/src/lib.rs:134-141 | the puzzle example's instruction list sums to 48 |
| Day4.ReadAllLines | day4/src/lib.rs:42-48 | one row per input line, each that line's characters |
| Day4.ReadLine | day4/src/lib.rs:38-40 | a row holds the characters of its line, in order |
| Day4.ReadRowsBack | day4/src/lib.rs:158-176 | rows written one per line are read back unchanged |
| Day4.Offset | day4/src/lib.rs:59-80 | a diagonal move changes each coordinate by plus or minus the step |
| Day4.WideRows | day4/src/lib.rs:86 | definition, no contract of its own: every row is at least as wide as row 0, whose width bounds the column check |
| Day4.OffsetGeometry | day4/src/lib.rs:59-80 | steps along a direction add up, the opposite diagonal negates both coordinates, and every direction has a distinct opposite |
| Day4.GetElementInDirectionWithStep | day4/src/lib.rs:54-94 | Some(None) exactly when the target row is outside the grid or the target column is outside the width of row 0; a panic (None) exactly when the target lies within those bounds but past the end of a narrower target row; otherwise the target cell; never a panic when every row is as wide as row 0 |
| Day4.GetElementInDirection | day4/src/lib.rs:50-52 | a letter read is the neighbour one step away; from the top-left corner only the south-east one exists; never a panic when every row is as wide as row 0 |
| Day4.GetPositionOfA | day4/src/lib.rs:96-129 | the cell one step away along the direction, where it is not negative |
| Day4.PositionOfAIsLookedUp | day4/src/lib.rs:15-19 | when the one-step lookup reads a letter, the position of the A is the cell it read |
| Day4.MasAt | day4/src/lib.rs:13-18 | definition, no contract of its own: the cell holds an M, the one-step lookup reads A and the two-step lookup reads S |
| Day4.PanicsAt | day4/src/lib.rs:13-18 | definition, no contract of its own: the cell holds an M and the one-step lookup panics, or it reads A and the two-step lookup panics |
| Day4.DirPanics | day4/src/lib.rs:14-28 | definition, no contract of its own: one of the first d directions panics at the cell |
| Day4.CellPanics | day4/src/lib.rs:14-28 | definition, no contract of its own: one of the four directions panics at the cell |
| Day4.RowPanics | day4/src/lib.rs:12-30 | definition, no contract of its own: a cell of the row before column n panics |
| Day4.GridPanics | day4/src/lib.rs:9-31 | definition, no contract of its own: a row before row m panics |
| Day4.DirPanicsMeaning | day4/src/lib.rs:14-28 | the directions panic at a cell exactly when some direction among them panics |
| Day4.RowPanicsMeaning | day4/src/lib.rs:12-30 | a row panics before column n exactly when some cell before it panics |
| Day4.GridPanicsMeaning | day4/src/lib.rs:9-31 | the grid panics before row m exactly when some row before it panics |
| Day4.PanicSpreads | day4/src/lib.rs:9-31 | a panicking cell makes its row panic, and a panicking row makes the grid panic |
| Day4.WideRowsNeverPanic | day4/src/lib.rs:82-93 | when every row is as wide as row 0 the search never panics |
| Day4.CellWithoutMNeverPanics | day4/src/lib.rs:13 | a cell without an M never panics, since it looks nothing up |
| Day4.DirHits | day4/src/lib.rs:14-26 | definition, no contract of its own: the A positions found at a cell for the first d directions, in enum order |
| Day4.RowHits | day4/src/lib.rs:12-30 | definition, no contract of its own: the A positions found in a row before column n, in column order |
| Day4.GridHits | day4/src/lib.rs:9-31 | definition, no contract of its own: the A positions found in the rows before row m, in search order |
| Day4.TallyOf | day4/src/lib.rs:20-25 | definition, no contract of its own: the list of A positions and the repeat count after recording the finds in order |
| Day4.TallyMeaning | day4/src/lib.rs:20-25 | the list of A positions has no duplicates and holds exactly the positions found; the count is the number of finds minus the number of distinct positions |
| Day4.SearchCell | day4/src/lib.rs:13-28 | the direction loop at one cell panics exactly when one of its directions panics; otherwise it adds that cell's finds to the list and the count |
| Day4.DirHitsNext | day4/src/lib.rs:14-26 | one direction adds the A position when M, A and S line up in it, and nothing otherwise |
| Day4.TallyOfNext | day4/src/lib.rs:20-25 | a position already listed raises the count; a new one is pushed |
| Day4.DirHitsWithoutM | day4/src/lib.rs:13 | a cell without an M finds nothing |
| Day4.SearchRow | day4/src/lib.rs:12-30 | the column loop panics exactly when a cell of the row panics; otherwise it adds the finds of the row, in column order |
| Day4.GridHitsNext | day4/src/lib.rs:9-31 | the finds of one more row follow those of the rows before |
| Day4.RowHitsNext | day4/src/lib.rs:12-30 | the finds of one more cell follow those of the cells before |
| Day4.SearchGrid | day4/src/lib.rs:9-31 | the row loop panics exactly when a row panics; otherwise it ends with the tally of all finds in search order |
| Day4.FindPatternsXmas | day4/src/lib.rs:4-36 | none exactly when a lookup lands past the end of a row narrower than row 0 (the index panic at line 93), always an answer when every row is as wide as row 0; the answer is the number of finds whose A was already found: one per X-MAS when each A is found at most twice |
| Day4.CrossGridShape | day4/src/lib.rs:4-36 | the model's own illustration grid for `find_patterns_xmas`, a single X-MAS, has three rows of widths 3, 2 and 3, so its rows are not all as wide as the first |
| Day4.CrossGridMs | day4/src/lib.rs:13 | its Ms are the two left corners |
| Day4.CrossGridTopLeft | day4/src/lib.rs:14-19 | the top-left M finds the centre A and does not panic |
| Day4.CrossGridBottomLeft | day4/src/lib.rs:14-19 | the bottom-left M finds it too and does not panic |
| Day4.CrossGridRow | day4/src/lib.rs:12-30 | the finds of each row |
| Day4.CrossGridRowNeverPanics | day4/src/lib.rs:12-30 | no row of the jagged grid panics: the centre-row cells hold no M, and the Ms of the outer rows never read past the narrow middle row |
| Day4.CrossGridFirstRows | day4/src/lib.rs:9-31 | the first two rows find the centre once |
| Day4.CrossGridNeverPanics | day4/src/lib.rs:9-31 | the whole jagged grid is searched without a panic |
| Day4.LastRowHits | day4/src/lib.rs:9-31 | in a three-row grid, a single find in the first two rows and a single find of the same A in the last row make two finds of it |
| Day4.CrossGridHits | day4/src/lib.rs:9-31 | the whole grid finds the centre twice |
| Day4.TallyOfTwice | day4/src/lib.rs:20-25 | an A found twice is listed once and counted once |
| Day4.CrossGridCount | day4/src/lib.rs:4-36 | the search of the jagged grid does not panic, and the single X-MAS is counted once |
| Day4.NarrowGridPanics | day4/src/lib.rs:86-93 | a grid whose M reads a column of row 0 that its second row lacks panics: the width check passes and the index goes out of bounds |
| Day5.ReadPageNumbers | day5/src/lib.rs:7-11 | a rule is read only from a line with a vertical bar, and neither page it reads contains one |
| Day5.ReadPageNumbersFails | day5/src/lib.rs:7-11 | reading a rule fails (the second `unwrap` panics) exactly when the line has no vertical bar |
| Day5.ReadPageNumbersOfRule | day5/src/lib.rs:7-11 | a before b, written with a vertical bar between them, reads as that rule; anything after a second bar is ignored |
| Day5.ReadPageNumberList | day5/src/lib.rs:13-26 | the comma split has at least one field, no field holds a comma, and joining the fields with commas gives back the line |
| Day5.ReadPageNumberListOfJoin | day5/src/lib.rs:13-26 | splitting comma-joined comma-free fields gives back the fields |
| Day5.GetMiddlePageNumber | day5/src/lib.rs:28-33 | a line without a comma is a single page and is its own middle page |
| Day5.GetMiddlePageNumberVec | day5/src/lib.rs:35-39 | the index `(len - 1) / 2` is in range and has as many pages after it as before it, or one more; the result is that page parsed |
| Day5.MiddleOfWrittenPages | day5/src/lib.rs:35-39 | a list of written numbers yields its middle number (the tests at 140-152) |
| Day5.MiddleOfWrittenLine | day5/src/lib.rs:28-33 | a comma-separated line of numbers yields its middle number (the test at 131-138) |
| Day5.TestNumbersForRules | day5/src/lib.rs:78-92 | true exactly when no rule puts a later page of the update before an earlier one |
| Day5.Precedes | day5/src/lib.rs:84-85 | definition, no contract of its own: some rule puts the first page before the second |
| Day5.RulesHold | day5/src/lib.rs:78-92 | definition, no contract of its own: no page of the update is followed by a page that a rule puts before it |
| Day5.RuleSwaps | day5/src/lib.rs:97-101 | trying the rules on one pair of positions keeps the length |
| Day5.InnerPass | day5/src/lib.rs:96-102 | one pass of the inner loop keeps the length |
| Day5.OuterPasses | day5/src/lib.rs:95-103 | the outer passes keep the length |
| Day5.BubbleSorted | day5/src/lib.rs:94-106 | the sorted update is as long as the update |
| Day5.RuleSwapsPermutes | day5/src/lib.rs:97-101 | the swaps for one pair permute the update |
| Day5.RuleStepPermutes | day5/src/lib.rs:97-101 | trying one more rule keeps the update a permutation |
| Day5.InnerPassPermutes | day5/src/lib.rs:96-102 | one inner pass permutes the update |
| Day5.InnerStepPermutes | day5/src/lib.rs:96-102 | comparing with one more position keeps the update a permutation |
| Day5.OuterPassesPermutes | day5/src/lib.rs:95-103 | the outer passes permute the update |
| Day5.OuterStepPermutes | day5/src/lib.rs:95-103 | one more outer pass keeps the update a permutation |
| Day5.BubbleSortedPermutes | day5/src/lib.rs:94-106 | the sort returns a permutation of the update: the same pages, the same number of times |
| Day5.BubbleSortPages | day5/src/lib.rs:94-106 | the loops sort the array in place into `BubbleSorted` of its old contents |
| Day5.ComparePairs | day5/src/lib.rs:96-102 | the loop over j does one inner pass in place |
| Day5.ApplyRules | day5/src/lib.rs:97-101 | the loop over the rules swaps the pair in place whenever a rule asks for it |
| Day5.RuleSwapsOnce | day5/src/lib.rs:97-101 | when the rules do not order a pair both ways, the pair is swapped exactly when some rule asks for it, at most once |
| Day5.StrictOrderOn | day5/src/lib.rs:97-101 | definition, no contract of its own: the rules order the pages strictly: no page before itself, and the order is transitive |
| Day5.PagesIn | day5/src/lib.rs:97-101 | definition, no contract of its own: every page of the update is one of the given pages |
| Day5.SwapAsked | day5/src/lib.rs:97-99 | definition, no contract of its own: one of the first k rules asks for the pair of positions to be swapped |
| Day5.SortedBefore | day5/src/lib.rs:95-103 | definition, no contract of its own: no page after one of the first i positions is ruled before it |
| Day5.MinimalUpTo | day5/src/lib.rs:96-102 | definition, no contract of its own: no page between position i and position j is ruled before the page at i |
| Day5.OrderFacts | day5/src/lib.rs:97-101 | a strict order on the pages is transitive and never orders a pair both ways |
| Day5.RuleSwapsKeepsPages | day5/src/lib.rs:97-101 | swapping brings in no new page |
| Day5.InnerPassKeepsPages | day5/src/lib.rs:96-102 | an inner pass brings in no new page |
| Day5.OuterPassesKeepPages | day5/src/lib.rs:95-103 | the outer passes bring in no new page |
| Day5.PairStep | day5/src/lib.rs:97-101 | after comparing position i with position j, position i holds a page no rule puts after any page up to j |
| Day5.InnerPassStep | day5/src/lib.rs:96-102 | comparing position i with one more position keeps the prefix sorted and position i minimal so far |
| Day5.InnerPassSorts | day5/src/lib.rs:96-102 | after the inner pass for i, position i holds a page that no rule puts after a later page |
| Day5.OuterPassSorts | day5/src/lib.rs:95-103 | each outer pass extends the sorted prefix by one position |
| Day5.ExtendSorted | day5/src/lib.rs:95-103 | a minimal page placed after a sorted prefix extends it |
| Day5.OuterPassesSort | day5/src/lib.rs:95-103 | after n outer passes, the first n positions are sorted |
| Day5.BubbleSortedPassesRules | day5/src/lib.rs:94-106 | when the rules strictly order the update's pages, the sorted update is a permutation that passes the rule check |
| Day5.FirstBlank | day5/src/lib.rs:46-50 | the first blank line, or the end when there is none |
| Day5.Blank | day5/src/lib.rs:47 | definition, no contract of its own: a line that trims to nothing |
| Day5.FirstBlankFrom | day5/src/lib.rs:46-50 | the first blank line at or after a start index, or the end |
| Day5.RuleSection | day5/src/lib.rs:51-53 | the rule section holds no blank line |
| Day5.NonBlank | day5/src/lib.rs:47-50 | dropping the blank lines never lengthens the list |
| Day5.ReadRules | day5/src/lib.rs:51-53 | one rule per rule line |
| Day5.ReadUpdates | day5/src/lib.rs:54-56 | one update per update line |
| Day5.UpdateSection | day5/src/lib.rs:54-56 | definition, no contract of its own: the update lines: the lines that are not blank from the first blank line on |
| Day5.NonEmptyUpdates | day5/src/lib.rs:13-26 | definition, no contract of its own: every update holds at least one page, as a comma split always does |
| Day5.Incorrect | day5/src/lib.rs:63-68 | the kept updates are at most all of them |
| Day5.SumPresent | day5/src/lib.rs:70-73 | the sum is defined exactly when every middle page parsed (no `unwrap` panicked) |
| Day5.SumPresentStep | day5/src/lib.rs:72 | adding one parsed middle page to the sum |
| Day5.SortedMiddles | day5/src/lib.rs:70-73 | one middle page per kept update |
| Day5.ReadRulesMeaning | day5/src/lib.rs:51-53 | the rules are read exactly when every rule line reads, and rule i is then the rule of line i |
| Day5.ReadUpdatesMeaning | day5/src/lib.rs:54-56 | update i is the comma split of update line i, and no update is empty |
| Day5.IncorrectAreNonEmpty | day5/src/lib.rs:63-68 | an update that breaks a rule has at least two pages, so the sort's `len() - 1` cannot underflow |
| Day5.SumOfCorrectedUpdates | day5/src/lib.rs:41-76 | definition, no contract of its own: the rules above the first blank line, the updates below it, and the sum of the middle pages of the rule-breaking updates once sorted |
| Day5.GetSumOfCorrectPageLists | day5/src/lib.rs:41-76 | the answer is the sum of the sorted middle pages of the updates that break a rule, with rules above the first blank line and updates below it; None where an `unwrap` would panic |
| Day5.ReadSections | day5/src/lib.rs:46-57 | the line loop computes the fold of its one-line step |
| Day5.ReadSectionLine | day5/src/lib.rs:47-56 | definition, no contract of its own: one turn of the line loop: a blank line ends rule mode, a rule line adds a rule (none when it has no `|`), an update line adds its split |
| Day5.ReadSectionLines | day5/src/lib.rs:46-57 | definition, no contract of its own: the line loop over the given lines, none once a rule line fails to read |
| Day5.FailedReadStays | day5/src/lib.rs:51-53 | once a rule line fails to read, the whole reading fails |
| Day5.SectionsStep | day5/src/lib.rs:46-57 | how one more line changes the rule and update sections |
| Day5.SectionsStepAfterBlank | day5/src/lib.rs:54-56 | after the first blank line, a non-blank line joins the updates |
| Day5.ReadSectionLinesMeaning | day5/src/lib.rs:46-57 | the line loop stays in rule mode exactly when there is no blank line, reads the rules above the first blank line, and reads the non-blank lines after it as updates |
| Day5.ReadUpdatesSnoc | day5/src/lib.rs:54-56 | one more update line adds its split |
| Day5.KeepIncorrect | day5/src/lib.rs:63-68 | the loop keeps the updates that fail the rule check, in order |
| Day5.SumSortedMiddles | day5/src/lib.rs:70-73 | the loop sums the middle pages of the sorted updates |
| Day5.SortedMiddle | day5/src/lib.rs:71-72 | sorting a copy of the update in an array and taking its middle page |
| Day5.SectionsOfInput | day5/src/lib.rs:46-57 | rules, one empty line and updates are split back into the rules and the updates |
| Day5.FirstBlankFromIs | day5/src/lib.rs:47 | the first blank line is found where it is |
| Day5.FirstBlankIs | day5/src/lib.rs:47 | the first blank line is found where it is |
| Day5.NonBlankOfBlankThen | day5/src/lib.rs:47-50 | the blank separator is not an update |
| Day5.IncorrectMembers | day5/src/lib.rs:63-68 | an update is kept exactly when it fails the rule check |
| Day5.NoBrokenUpdatesSumToZero | day5/src/lib.rs:59-75 | when every update passes the rules, nothing is kept and the sum is 0 |
| Day5.TotalOrderPair | day5/src/lib.rs:97-101 | under the rules ordering 1 to 5 a pair is swapped exactly when its later page is the smaller |
| Day5.InnerPassNext | day5/src/lib.rs:96-102 | one more comparison of the inner pass |
| Day5.TotalOrderPass0 | day5/src/lib.rs:169-199 | the first pass of the sorting test brings 1 to the front |
| Day5.TotalOrderPass1 | day5/src/lib.rs:169-199 | the second pass brings 2 to position 1 |
| Day5.TotalOrderPass2 | day5/src/lib.rs:169-199 | the third pass brings 3 to position 2 |
| Day5.TotalOrderPass3 | day5/src/lib.rs:169-199 | the last pass puts 4 before 5 |
| Day5.TotalOrderExample | day5/src/lib.rs:169-199 | `4,5,1,3,2` is sorted to `1,2,3,4,5` |
| Day5.SingleRuleIncorrect | day5/src/lib.rs:154-166 | under the rule 1 before 2, the update `2,1` is kept and `1,2` is not (the tests at 154-166 and 201-213) |
| Day5.SingleRuleSorted | day5/src/lib.rs:94-106 | under that rule `2,1` is sorted to `1,2` |
| Day5.SingleRuleExample | day5/src/lib.rs:41-76 | with that rule and the updates `1,2` and `2,1`, the answer is 1 |
| Day6.ReadMap | day6/src/lib.rs:26-40 | no row of the map holds a line break, and there are no more rows than newline-separated pieces of the input |
| Day6.ReadMapOfRows | day6/src/lib.rs:26-40 | rows written one per line are read back as the map |
| Day6.IsClearWay | day6/src/lib.rs:42-44 | both the untouched cell `.` and the visit mark `X` are free, so marking a cell keeps it walkable |
| Day6.IsObstacle | day6/src/lib.rs:46-48 | an obstacle is never a free cell |
| Day6.IsGuard | day6/src/lib.rs:50-52 | a guard is neither a free cell nor an obstacle |
| Day6.FacingDirectionOfGuard | day6/src/lib.rs:54-62 | defined only on a guard, where the source panics otherwise; the guard is drawn with the symbol of the direction it returns |
| Day6.GuardSymbol | day6/src/lib.rs:64-71 | the symbol drawn for every direction is a guard |
| Day6.GuardSymbolsInverse | day6/src/lib.rs:54-71 | the guard drawn with a direction's symbol faces that direction, so no two directions share a symbol (the tests at 812-817) |
| Day6.RotateClockwise | day6/src/lib.rs:87-95 | a clockwise quarter turn always changes the direction, and the counterclockwise turn undoes it |
| Day6.RotateCounterclockwise | day6/src/lib.rs:97-105 | a counterclockwise quarter turn always changes the direction |
| Day6.Rotations | day6/src/lib.rs:87-105 | turning clockwise undoes turning counterclockwise, and four clockwise turns pass through four different directions before coming back |
| Day6.Destination | day6/src/lib.rs:114-121 | the destination is a horizontal or vertical neighbour of the source position |
| Day6.SetCell | day6/src/lib.rs:152-168 | definition, no contract of its own: the map with one cell overwritten, as `map[y][x] = c` does |
| Day6.DestinationReversed | day6/src/lib.rs:114-121 | the four directions lead to four different cells, and stepping back after two clockwise turns returns to the start (the test at 701-709) |
| Day6.IsPositionInsideOfMap | day6/src/lib.rs:107-112 | on a square map, the check holds exactly for the cells of the map (the tests at 722-744) |
| Day6.InsideCheckUsesWidthForY | day6/src/lib.rs:110-111 | on a one-row map two cells wide, the check accepts the missing cell (0, 1) because it bounds y by the width of row 0 |
| Day6.SetCellWrites | day6/src/lib.rs:152-168 | writing one cell keeps the shape of the map and changes only that cell |
| Day6.Ahead | day6/src/lib.rs:149 | the cell ahead is never the guard's own cell |
| Day6.Advance | day6/src/lib.rs:157-163 | stepping forward keeps a valid guard, moves it to the cell ahead and keeps its direction |
| Day6.TurnRight | day6/src/lib.rs:164-169 | turning keeps the guard where it is and turns it clockwise |
| Day6.WithObstacle | day6/src/lib.rs:361-362 | drawing the candidate obstruction leaves the guard where it is |
| Day6.Leave | day6/src/lib.rs:151-153 | the map left behind keeps its square shape |
| Day6.StepForward | day6/src/lib.rs:157-163 | the two writes and the move of a forward step |
| Day6.TurnInPlace | day6/src/lib.rs:164-169 | the rotation and the new guard symbol of a turn |
| Day6.TurnAtObstruction | day6/src/lib.rs:361-365 | drawing the candidate obstruction and turning away from it |
| Day6.AdvanceKeepsOneGuard | day6/src/lib.rs:157-163 | a step onto a clear cell moves the only guard there and marks the cell left with 'X' |
| Day6.TurnKeepsOneGuard | day6/src/lib.rs:164-169 | a turn redraws the only guard facing its new direction |
| Day6.ObstacleKeepsOneGuard | day6/src/lib.rs:361-362 | drawing an obstruction away from the guard keeps the only guard |
| Day6.ObstacleOnWallChangesNothing | day6/src/lib.rs:361-362 | drawing the obstruction over an obstacle changes nothing |
| Day6.LeaveRemovesGuard | day6/src/lib.rs:151-153 | the map left behind has no guard |
| Day6.FirstGuardFrom | day6/src/lib.rs:73-85 | a guard found from a point of the column-by-column scan is a guard on the map |
| Day6.FirstGuard | day6/src/lib.rs:73-85 | a guard found is a guard on the map |
| Day6.FirstGuardFromMeaning | day6/src/lib.rs:73-85 | on a square map: from any point, the scan finds nothing exactly when no guard lies ahead, and otherwise the first guard in column-by-column order |
| Day6.FirstGuardMeaning | day6/src/lib.rs:73-85 | on a square map: `find_guard` panics exactly when the map has no guard; otherwise no guard comes before the one found in column-by-column order |
| Day6.FirstGuardOfOnlyGuard | day6/src/lib.rs:73-85 | the only guard on the map is the one found (the test at 776-785) |
| Day6.FindGuard | day6/src/lib.rs:73-85 | the nested loops of `find_guard`, reading `map[j][i]`, find that guard |
| Day6.FirstGuardOfWideGrid | day6/src/lib.rs:74-80 | on a map two rows high and three wide with its guard at (1, 0), the scan of column 0 reads the missing row 2 first, so `find_guard` panics although a guard is present |
| Day6.XCellsStep | day6/src/lib.rs:126-135 | each cell is visited once by the column-by-column scan |
| Day6.XCellsNextColumn | day6/src/lib.rs:126-135 | finishing a column is starting the next |
| Day6.XCellsAll | day6/src/lib.rs:126-135 | the whole scan covers every cell |
| Day6.XCountFrom | day6/src/lib.rs:123-137 | definition, no contract of its own: the count loop of `get_amount_of_x` from column i, row j, none where it reads outside the map |
| Day6.XCountFromSquare | day6/src/lib.rs:126-135 | on a square map the scan from any point reads every later cell without panicking and counts the 'X' cells among them |
| Day6.XCountOfSquare | day6/src/lib.rs:123-137 | on a square map `get_amount_of_x` does not panic and counts exactly the cells marked 'X' |
| Day6.XCountOfWideGrid | day6/src/lib.rs:126-129 | on a map two rows high and three wide the scan reads the missing row 2 and panics |
| Day6.GetAmountOfX | day6/src/lib.rs:123-137 | the loops give the scan's count, None exactly where a read `map[j][i]` leaves the map and the source panics; on a square map the count is the number of cells marked 'X' (the test at 711-720) |
| Day6.XCells | day6/src/lib.rs:126-135 | definition, no contract of its own: the cells marked `X` |
| Day6.XCellsBefore | day6/src/lib.rs:126-135 | definition, no contract of its own: the cells marked `X` before a position in column-major order |
| Day6.AddCount | day6/src/lib.rs:131-133 | definition, no contract of its own: a count so far added to the count of the rest of the scan, none when the rest reads outside the map |
| Day6.GetAllObstacles | day6/src/lib.rs:440-455 | the list holds exactly the obstacle cells, in row-by-row order |
| Day6Walks.Start | day6/src/lib.rs:139-143 | there is a start exactly when the map has a guard; it is a valid guard on that map |
| Day6Walks.StartOfValid | day6/src/lib.rs:73-85 | a map with a valid guard on it has a start |
| Day6Walks.LocateGuard | day6/src/lib.rs:140-143 | finding the guard and reading its direction gives the start |
| Day6Walks.PlainStep | day6/src/lib.rs:148-170 | one turn of the action loop: out exactly when the cell ahead is off the map; a step onto a clear cell records the move made and moves the guard; any other turn leaves the guard in place |
| Day6Walks.ObstructedStep | day6/src/lib.rs:359-389 | one turn of a loop test: out exactly when the cell ahead is not the candidate obstruction and is off the map; moves as in the patrol |
| Day6Walks.TakePlainTurn | day6/src/lib.rs:149-169 | the method's writes give the turn `PlainStep` specifies |
| Day6Walks.TakeTurn | day6/src/lib.rs:359-389 | the method's writes give the turn `ObstructedStep` specifies |
| Day6Walks.PlainStepKeepsOneGuard | day6/src/lib.rs:148-170 | a patrol turn keeps exactly one guard on the map, at the guard's position |
| Day6Walks.ObstructionOnWallStep | day6/src/lib.rs:359-366 | a candidate obstruction placed on an existing obstacle changes no turn |
| Day6Walks.Patrol | day6/src/lib.rs:148-170 | the map the patrol leaves keeps the square shape |
| Day6Walks.PatrolTurn | day6/src/lib.rs:148-170 | the patrol is its first turn followed by the rest of it |
| Day6Walks.PatrolWalkedTurn | day6/src/lib.rs:148-170 | a turn on the map passes the patrol on to the next guard |
| Day6Walks.PatrolLeavesNoGuard | day6/src/lib.rs:148-172 | with one guard on the map, the map the patrol leaves has no guard |
| Day6Walks.WalkPatrol | day6/src/lib.rs:148-170 | the action loop leaves the map `Patrol` specifies |
| Day6Walks.PatrolStep | day6/src/lib.rs:148-170 | one turn of the action loop, as a method |
| Day6Walks.VisitedCount | day6/src/lib.rs:139-173 | the reference for part one, the number of cells marked `X` once the guard has left a square map; a map without a guard has no answer, where `find_guard` panics |
| Day6Walks.AnalyzeGuardsPatrolPattern | day6/src/lib.rs:139-173 | the answer is the number of cells marked 'X' once the guard has left the map |
| Day6Walks.Redo | day6/src/lib.rs:342-391 | definition, no contract of its own: the loop test with the record of moves, true when the counter runs out or a move repeats, false when the guard leaves the map |
| Day6Walks.RedoTurn | day6/src/lib.rs:351-390 | the test is false when the guard leaves the map, true when a step repeats a recorded move, and otherwise goes on with the move recorded |
| Day6Walks.Forever | day6/src/lib.rs:393-438 | definition, no contract of its own: the loop test without the record, true when the counter runs out, false when the guard leaves the map |
| Day6Walks.ForeverTurn | day6/src/lib.rs:405-436 | the test is false when the guard leaves the map and otherwise goes on |
| Day6Walks.ForeverWalkedTurn | day6/src/lib.rs:405-436 | a turn on the map passes the test on to the next guard |
| Day6Walks.RedoFalseThenForeverFalse | day6/src/lib.rs:342-438 | a walk the test with moves calls finite is finite for the test without them |
| Day6Walks.ObstructionOnWallIsPatrol | day6/src/lib.rs:393-438 | testing an obstruction on an existing obstacle says true exactly when the plain patrol does not leave the map in the same number of turns |
| Day6Walks.RedoLoop | day6/src/lib.rs:351-390 | the loop computes `Redo` |
| Day6Walks.RedoStep | day6/src/lib.rs:352-389 | one turn of that loop, with its counter |
| Day6Walks.BlockingDestRedoesAMove | day6/src/lib.rs:342-391 | the answer is `Redo` with 30000 on the counter, from the guard found on the map |
| Day6Walks.ForeverLoop | day6/src/lib.rs:405-436 | the loop computes `Forever` |
| Day6Walks.ForeverStep | day6/src/lib.rs:406-435 | one turn of that loop, with its counter |
| Day6Walks.TestIfGoesForever | day6/src/lib.rs:393-438 | the answer is `Forever` with 20000 on the counter |
| Day6Walks.FirstHit | day6/src/lib.rs:496-529 | definition, no contract of its own: the first obstacle other than the candidate obstruction that the guard faces, or none when it leaves the map first |
| Day6Walks.FirstHitTurn | day6/src/lib.rs:496-529 | the walk is its first turn followed by the rest of it |
| Day6Walks.FirstHitWalkedTurn | day6/src/lib.rs:496-529 | a turn on the map passes the walk on to the next guard |
| Day6Walks.SetCellKeepsObstacles | day6/src/lib.rs:500-520 | writing a non-obstacle, or writing at the obstruction, draws no new obstacle |
| Day6Walks.ObstructedStepDrawsNoObstacle | day6/src/lib.rs:498-528 | a turn of the walk draws no obstacle but the candidate obstruction |
| Day6Walks.FirstHitIsOriginalObstacle | day6/src/lib.rs:521-527 | the obstacle the guard runs into is one of the original map, never the candidate obstruction |
| Day6Walks.ObstaclesFrom | day6/src/lib.rs:500-520 | definition, no contract of its own: every obstacle on the current map, apart from one at the candidate obstruction, was already on the original map |
| Day6Walks.HitsOriginal | day6/src/lib.rs:521-527 | definition, no contract of its own: a walk's answer names, if anything, an obstacle of the original map other than the candidate obstruction |
| Day6Walks.PossibleObstruction | day6/src/lib.rs:486-530 | definition, no contract of its own: whether that first obstacle is among the known ones; false when the guard leaves first |
| Day6Walks.PossibleObstructionMeaning | day6/src/lib.rs:486-530 | the answer is true only when the guard runs into a known obstacle of the original map other than the candidate obstruction |
| Day6Walks.HitLoop | day6/src/lib.rs:496-529 | the loop computes `FirstHit` |
| Day6Walks.HitStep | day6/src/lib.rs:497-528 | one turn of that loop |
| Day6Walks.IsKnownObstacle | day6/src/lib.rs:522-526 | true exactly when the position is in the known list |
| Day6Walks.TestPossibleObstruction | day6/src/lib.rs:486-530 | the method answers what `PossibleObstruction` specifies |
| Day6Walks.AddOnce | day6/src/lib.rs:318-322 | the cell is pushed exactly when the test found it blocking and it is not listed yet |
| Day6Walks.Blocks | day6/src/lib.rs:316-318 | definition, no contract of its own: the test made before each step onto a clear cell: the loop test with the record of moves on the map as it is, the cell ahead as the obstruction, 30000 turns |
| Day6Walks.InSquare | day6/src/lib.rs:319-320 | definition, no contract of its own: positions that name cells of an n by n map |
| Day6Walks.ListedOnce | day6/src/lib.rs:319-320 | definition, no contract of its own: cells of an n by n map, each listed once, stated entry by entry from the end |
| Day6Walks.ReportedOnce | day6/src/lib.rs:319-320 | definition, no contract of its own: an answer, when there is one, lists cells once each |
| Day6Walks.ListedOnceMeaning | day6/src/lib.rs:319-320 | listing entry by entry is having no duplicates and only cells of the map |
| Day6Walks.AddOnceKeepsDistinct | day6/src/lib.rs:319-320 | pushing only unlisted cells keeps the list free of duplicates |
| Day6Walks.Obstructions | day6/src/lib.rs:307-336 | definition, no contract of its own: the obstructions the action loop collects, each added once, when the guard walks off the map |
| Day6Walks.ObstructionsTurn | day6/src/lib.rs:307-336 | the search is its first turn followed by the rest; a step onto a clear cell tests the cell, records the move and may add the cell |
| Day6Walks.ObstructionsDistinct | day6/src/lib.rs:297-340 | every obstruction found is a cell of the map, listed once |
| Day6Walks.WalkedObstructionsDistinct | day6/src/lib.rs:307-336 | the same for a search whose first turn stays on the map |
| Day6Walks.ObstructionsMadeTurn | day6/src/lib.rs:316-331 | a step onto a clear cell passes the search on with the move recorded and the cell added if it blocks |
| Day6Walks.ObstructionsStillTurn | day6/src/lib.rs:332-335 | a turn passes the search on unchanged |
| Day6Walks.SearchTurn | day6/src/lib.rs:308-335 | one turn of the action loop, with the test of the cell ahead |
| Day6Walks.ObstructionsLoop | day6/src/lib.rs:307-336 | the loop computes `Obstructions` |
| Day6Walks.ObstructionCount | day6/src/lib.rs:297-340 | the reference for part two, the number of obstructions the search finds on a square map; a map without a guard has no answer, where `find_guard` panics |
| Day6Walks.FindAllPossibleObstructions | day6/src/lib.rs:297-340 | the answer is the number of distinct cells where the test said the guard would loop |
| Day7.JoinedDigitsParse | day7/src/lib.rs:11-18 | the joined decimal texts always parse, so the `unwrap` in `concatenate` cannot panic on unbounded numbers |
| Day7.DigitCount | day7/src/lib.rs:12-13 | every number has at least one digit |
| Day7.DigitCountBounds | day7/src/lib.rs:12-13 | a number with k digits lies below 10^k, and at or above 10^(k-1) when k > 1 |
| Day7.NatToStringLength | day7/src/lib.rs:12-13 | `to_string` writes exactly as many digits as the number has |
| Day7.Add | day7/src/lib.rs:3-5 | definition, no contract of its own: the sum |
| Day7.Multiply | day7/src/lib.rs:7-9 | definition, no contract of its own: the product |
| Day7.Concatenate | day7/src/lib.rs:11-18 | joining the decimal texts and reading them back is shifting the left number by the digit count of the right and adding the right |
| Day7.Shifted | day7/src/lib.rs:11-18 | definition, no contract of its own: the left number shifted by as many decimal places as the right one has digits, plus the right one: the arithmetic meaning of the concatenation |
| Day7.Apply | day7/src/lib.rs:59-61 | definition, no contract of its own: one of the three operators `calculate_one_equation` tries, in its order: sum, product, concatenation |
| Day7.ConcatenateOneDigit | day7/src/lib.rs:102-106 | with a one-digit right operand, concatenating is multiplying by ten and adding (so `2` and `3` give 23) |
| Day7.TakeUntilColon | day7/src/lib.rs:30-32 | the longest prefix without ':'; the line continues with ':' where it stops early |
| Day7.SkipWithColon | day7/src/lib.rs:37 | `skip_while` drops the leading pieces that hold ':', and what remains is a suffix that does not start with one |
| Day7.ParseEach | day7/src/lib.rs:38 | each piece parsed in turn |
| Day7.ReadLines | day7/src/lib.rs:29-42 | definition, no contract of its own: the lines read one by one, in order; none as soon as one does not read |
| Day7.ReadEquations | day7/src/lib.rs:26-45 | definition, no contract of its own: every line read as an equation, in order; none where an `unwrap` panics |
| Day7.ReadLinesMeaning | day7/src/lib.rs:29-42 | the lines are read exactly when every line reads, one equation per line in order |
| Day7.ReadLinesStep | day7/src/lib.rs:29-42 | one more line read extends the equations, and a line that does not read ends the reading |
| Day7.ReadInput | day7/src/lib.rs:26-45 | `read_input` reads one equation per input line, None where an `unwrap` panics |
| Day7.ReadEachLine | day7/src/lib.rs:29-42 | the loop over the lines reads the equations |
| Day7.Written | day7/src/lib.rs:36-39 | the members written one per field |
| Day7.EquationLine | day7/src/lib.rs:29-41 | definition, no contract of its own: the line an equation is written as: the test value, a colon, and the members separated by blanks |
| Day7.WrittenDigits | day7/src/lib.rs:36-39 | written members are all digits |
| Day7.ParseWritten | day7/src/lib.rs:38 | parsing the written members gives them back |
| Day7.SkipWritten | day7/src/lib.rs:37 | the piece holding ':' is skipped and the members are kept |
| Day7.SplitWritten | day7/src/lib.rs:36 | splitting the written line at blanks gives back its pieces |
| Day7.WrittenLineStart | day7/src/lib.rs:30-32 | a written equation starts with the test value and ':' |
| Day7.TakeUntilColonOfLine | day7/src/lib.rs:30-32 | the prefix before ':' of a written equation is the test value |
| Day7.ReadEquation | day7/src/lib.rs:29-41 | definition, no contract of its own: the number before the colon is the test value and the numbers after it are the members; none where an `unwrap` panics |
| Day7.ReadEquationOfLine | day7/src/lib.rs:29-41 | an equation written as `value: a b c` reads back as itself (the test at 108-115) |
| Day7.ReadEquationOfParts | day7/src/lib.rs:29-41 | a line whose value and members parse reads as that equation |
| Day7.EquationLineIsPlain | day7/src/lib.rs:29 | a written equation has no line break in it |
| Day7.JoinOfDigitLines | day7/src/lib.rs:29 | joining digit pieces with blanks gives a single line |
| Day7.ReadInputOfWritten | day7/src/lib.rs:26-45 | equations written one per line are read back unchanged |
| Day7.Expand | day7/src/lib.rs:56-63 | each earlier value gives three new ones |
| Day7.ExpandAt | day7/src/lib.rs:58-62 | the three values made from earlier value i are its sum, product and concatenation with the member, at 3i, 3i+1 and 3i+2 |
| Day7.Pow3 | day7/src/lib.rs:47-67 | powers of three are positive |
| Day7.Results | day7/src/lib.rs:47-67 | definition, no contract of its own: the first member alone, then each further member expands every earlier value into its sum, product and concatenation |
| Day7.ResultsCount | day7/src/lib.rs:47-67 | n members give 3^(n-1) values, and no members give none |
| Day7.ChoiceAt | day7/src/lib.rs:47-67 | the operator choice at an index has one operator per gap |
| Day7.OperatorCode | day7/src/lib.rs:59-61 | definition, no contract of its own: the place of an operator in the order it is tried |
| Day7.ChoiceIndex | day7/src/lib.rs:47-67 | definition, no contract of its own: the index at which a choice of operators is listed: the choice read as a base-3 number, the first operator the most significant digit |
| Day7.ChoiceIndexOfChoiceAt | day7/src/lib.rs:47-67 | every index below 3^n names a choice of n operators, read as base-three digits |
| Day7.Evaluate | day7/src/lib.rs:47-67 | definition, no contract of its own: the members combined strictly left to right, each operator between two neighbouring members |
| Day7.ResultsAt | day7/src/lib.rs:47-67 | every choice of operators, applied left to right, has its value in the list at its index |
| Day7.ListedIsEvaluation | day7/src/lib.rs:47-67 | every listed value is the value of the choice at its index |
| Day7.ResultsMeaning | day7/src/lib.rs:47-67 | a value is listed exactly when some choice of operators between the members, applied left to right, gives it |
| Day7.ExpandResults | day7/src/lib.rs:56-63 | the inner loop builds the three values for each earlier value |
| Day7.CalculateOneEquation | day7/src/lib.rs:47-67 | the loop lists the values of all operator choices in that order |
| Day7.ResultsExample | day7/src/lib.rs:117-124 | `1 2 3` gives 6, 9, 33, 5, 6, 23, 15, 36, 123 |
| Day7.Solvable | day7/src/lib.rs:73-80 | definition, no contract of its own: the test value is among the listed values |
| Day7.SolvableMeaning | day7/src/lib.rs:73-80 | an equation is kept exactly when some choice of operators gives its test value |
| Day7.MatchesSomeResult | day7/src/lib.rs:75-80 | the inner loop finds the test value exactly when it is listed |
| Day7.CollectValid | day7/src/lib.rs:73-81 | the loop keeps the solvable equations in order, each once |
| Day7.ValidEquations | day7/src/lib.rs:73-81 | definition, no contract of its own: the solvable equations, in order, each once |
| Day7.SumOfResults | day7/src/lib.rs:83 | definition, no contract of its own: the sum of the test values |
| Day7.CalculateCalibration | day7/src/lib.rs:69-84 | the answer is the sum of the test values of the solvable equations, None where reading panics |
| Day7.CalibrationOf | day7/src/lib.rs:69-84 | definition, no contract of its own: the answer for an input: none where `read_input` panics, otherwise the calibration of its equations |
| Day7.ValidEquationsConcat | day7/src/lib.rs:73-81 | the kept equations of two lists are those of each list in turn |
| Day7.SumOfResultsConcat | day7/src/lib.rs:83 | the sum over two lists is the sum of the sums |
| Day7.Calibration | day7/src/lib.rs:69-84 | definition, no contract of its own: the sum of the test values of the solvable equations |
| Day7.CalibrationAdds | day7/src/lib.rs:69-84 | the total over two lists of equations is the sum of their totals |
| Day7.CalibrationOfOne | day7/src/lib.rs:73-83 | one equation adds its test value exactly when it is solvable |
| Day7.ResultsOfTwo | day7/src/lib.rs:47-67 | two members give their sum, their product and their concatenation |
| Day7.ExampleSolvable190 | day7/src/lib.rs:128 | `190: 10 19` is solvable |
| Day7.ExampleUnsolvable83 | day7/src/lib.rs:130 | `83: 17 5` is not |
| Day7.ExampleSolvable156 | day7/src/lib.rs:131 | `156: 15 6` is solvable by concatenation |
| Day7.CalibrationExample | day7/src/lib.rs:126-141 | three lines of the example add up to 190 + 156 = 346 |
| Day8.ReadMap | day8/src/lib.rs:29-43 | no row of the map holds a line break, and there are no more rows than newline-separated pieces of the input |
| Day8.Width | day8/src/lib.rs:16-18 | definition, no contract of its own: the length of the first row, which must exist (the source panics on an empty map) |
| Day8.Height | day8/src/lib.rs:20-22 | definition, no contract of its own: the number of rows |
| Day8.IsPositionFree | day8/src/lib.rs:24-26 | definition, no contract of its own: the cell holds `.`; the position must name a cell, where the source panics otherwise |
| Day8.IsPositionInMap | day8/src/lib.rs:84-89 | on a map whose rows are all as wide as the first, a position is in the map exactly when it names a cell |
| Day8.ReadMapOfRows | day8/src/lib.rs:29-43 | rows written one per line are read back as the map |
| Day8.OutsideExample | day8/src/lib.rs:195-215 | on a 12 by 12 map, (13, 2) is outside and (11, 11) inside |
| Day8.StepsInside | day8/src/lib.rs:52-61 | a ray that stays inside along one coordinate takes at most as many steps as the map is wide |
| Day8.Offset | day8/src/lib.rs:53 | definition, no contract of its own: the point k steps of the difference away from a position |
| Day8.MulAtLeast | day8/src/lib.rs:53 | a positive step factor never shrinks a distance |
| Day8.RayBound | day8/src/lib.rs:52-73 | a ray from inside the map leaves it within width plus height steps, so both edge loops end |
| Day8.Ray | day8/src/lib.rs:52-61 | definition, no contract of its own: the points k, k + 1, ... steps along the difference from the start, as long as they lie on the map: one edge loop from its k-th turn on |
| Day8.RayMeaning | day8/src/lib.rs:52-61 | the ray lists the positions 1, 2, ... steps along the difference, in order, while they are on the map, and the next one is off it |
| Day8.ZeroStepStays | day8/src/lib.rs:52-61 | a zero difference would never leave the map, which is why equal antennas are not paired |
| Day8.AntinodesFor | day8/src/lib.rs:45-82 | definition, no contract of its own: the points beyond the second antenna in steps of their difference while on the map, then those before the first, then the two antennas |
| Day8.AntinodesForMeaning | day8/src/lib.rs:45-82 | the antinodes are the ray beyond the second antenna, then the ray beyond the first in the opposite direction, then the two antennas; each ray stops at the map's edge |
| Day8.OffsetOnLine | day8/src/lib.rs:53 | every step along the difference stays on the antennas' line |
| Day8.OffsetOfOffset | day8/src/lib.rs:53 | stepping from the next position is one more step |
| Day8.OffsetBackwards | day8/src/lib.rs:65 | stepping back is stepping a negative number of times |
| Day8.OnLine | day8/src/lib.rs:45-47 | definition, no contract of its own: a position lies on the line through a point with the given direction |
| Day8.AntinodesOnLine | day8/src/lib.rs:45-82 | every antinode lies on the line through the two antennas |
| Day8.AntinodesForExample | day8/src/lib.rs:147-169 | antennas (4, 3) and (5, 5) on the example map give (6, 7), (7, 9), (8, 11), (3, 1) and the two antennas |
| Day8.AntinodesForExample2 | day8/src/lib.rs:171-193 | antennas (4, 3) and (8, 4) give (0, 2) and the two antennas |
| Day8.PushRay | day8/src/lib.rs:52-61 | the edge loop appends the ray |
| Day8.CalculateAntinodesFor | day8/src/lib.rs:45-82 | the method returns the specified antinodes |
| Day8.Record | day8/src/lib.rs:104-115 | a frequency met for the first time is added to the known ones with a list of its own; a known one gets the position appended; other lists are unchanged |
| Day8.Consistent | day8/src/lib.rs:97-98 | definition, no contract of its own: the frequencies with a list of positions are the known ones |
| Day8.ColumnMajorBefore | day8/src/lib.rs:100-101 | definition, no contract of its own: one position comes before another when the map is read column by column |
| Day8.ScanFrom | day8/src/lib.rs:100-117 | definition, no contract of its own: the scan from column i, row j on, reading `coordinates[j][i]` with j running over the length of row i; none where row j is missing or too short for column i |
| Day8.Scan | day8/src/lib.rs:97-117 | definition, no contract of its own: the antennas of the whole map, from an empty table; none where the scan panics |
| Day8.Holds | day8/src/lib.rs:102 | definition, no contract of its own: the cell at the position exists and holds the character |
| Day8.Recorded | day8/src/lib.rs:100-117 | definition, no contract of its own: what the scan keeps true before column i, row j: each known frequency has a list, `.` is none of them, none is known twice, every listed position holds its frequency and comes earlier, and each list is in scan order |
| Day8.RecordedStep | day8/src/lib.rs:100-117 | reading one cell keeps every listed position holding its frequency, in column-major order |
| Day8.ScanFromRecorded | day8/src/lib.rs:100-117 | the rest of the scan keeps that invariant |
| Day8.ScanRecorded | day8/src/lib.rs:100-117 | a finished scan lists each frequency once, without '.', and each list holds positions of that frequency in column-major order |
| Day8.RecordedLists | day8/src/lib.rs:104-115 | no position is listed twice for one frequency |
| Day8.DistinctLists | day8/src/lib.rs:104-115 | definition, no contract of its own: no position is listed twice for one frequency |
| Day8.Complete | day8/src/lib.rs:100-117 | definition, no contract of its own: every antenna before column i, row j is listed under its frequency |
| Day8.Square | day8/src/lib.rs:100-102 | definition, no contract of its own: a square map: every row as long as the number of rows |
| Day8.CompleteStep | day8/src/lib.rs:100-117 | reading one cell of a square map keeps every antenna met listed |
| Day8.ScanFromComplete | day8/src/lib.rs:100-117 | on a square map the rest of the scan does not panic and lists every antenna |
| Day8.ScanComplete | day8/src/lib.rs:100-117 | on a square map the scan lists every antenna under its frequency |
| Day8.ScanAntennas | day8/src/lib.rs:97-117 | the nested loops, reading `coordinates[j][i]`, build the specified table |
| Day8.PairAntinodesOf | day8/src/lib.rs:127 | the pairing used is `calculate_antinodes_for` for distinct antennas |
| Day8.PairAntinodes | day8/src/lib.rs:127 | definition, no contract of its own: `calculate_antinodes_for` as a value: the antinodes two antennas give, nothing for two equal ones |
| Day8.PairsWith | day8/src/lib.rs:126-128 | definition, no contract of its own: the antinodes the pair (i, j) adds to row i: those of antennas i and j when i < j, nothing otherwise |
| Day8.RowChoices | day8/src/lib.rs:126-129 | definition, no contract of its own: the antinodes of the pairs (i, i + 1) up to (i, n - 1), in that order |
| Day8.RowsOf | day8/src/lib.rs:125-130 | definition, no contract of its own: row i of the pairs, the whole row |
| Day8.Choices | day8/src/lib.rs:124-130 | definition, no contract of its own: `antinode_choices`: the antinodes of every pair (i, j) with i < j among the first n rows, row after row |
| Day8.RowChoicesStart | day8/src/lib.rs:126 | the inner pair loop starts after i |
| Day8.RowChoicesStep | day8/src/lib.rs:126-129 | one more pair appends its antinodes |
| Day8.ChoicesStep | day8/src/lib.rs:125-130 | one more row of pairs appends its antinodes |
| Day8.ChoicesMeaning | day8/src/lib.rs:124-130 | a position is a choice exactly when it is an antinode of some pair (a, b) with a < b |
| Day8.AddNew | day8/src/lib.rs:131-137 | definition, no contract of its own: the list after the loop over the choices: each choice appended unless it is already there |
| Day8.Gather | day8/src/lib.rs:120-138 | definition, no contract of its own: the lists of the first n frequencies added one after the other to an empty list |
| Day8.AddNewMeaning | day8/src/lib.rs:131-137 | adding only positions not yet listed keeps the list free of repeats, and the result holds exactly the old positions and the choices |
| Day8.GatherDistinct | day8/src/lib.rs:120-138 | the collected antinodes have no repeats |
| Day8.GatherHas | day8/src/lib.rs:120-138 | every choice of every frequency is collected |
| Day8.GatherFrom | day8/src/lib.rs:120-138 | every collected position comes from some frequency's choices |
| Day8.CollectedStep | day8/src/lib.rs:131-137 | one more frequency adds its choices |
| Day8.FrequencyChoices | day8/src/lib.rs:120-130 | definition, no contract of its own: the choices of the t-th known frequency |
| Day8.Collected | day8/src/lib.rs:119-138 | definition, no contract of its own: `antinodes` after the first n known frequencies |
| Day8.AntinodeOf | day8/src/lib.rs:120-130 | definition, no contract of its own: the position is an antinode of two antennas, in list order, of one of the first n known frequencies |
| Day8.CollectedMeaning | day8/src/lib.rs:119-138 | the collected antinodes have no repeats and are exactly the antinodes of pairs of antennas of one frequency |
| Day8.AntinodeAmount | day8/src/lib.rs:91-141 | definition, no contract of its own: the number of distinct antinodes over every frequency, none for an empty map or a scan that runs off a row |
| Day8.AntinodeAmountMeaning | day8/src/lib.rs:91-141 | there is an answer exactly when the map has rows and the scan does not panic; it is then the number of distinct antinodes of pairs of same-frequency antennas |
| Day8.PairChoices | day8/src/lib.rs:124-130 | the pair loops collect the choices of all pairs in order |
| Day8.PairRow | day8/src/lib.rs:126-129 | the inner pair loop collects the choices of one row |
| Day8.AddNewPositions | day8/src/lib.rs:131-137 | the loop adds the choices not yet listed |
| Day8.CalculateAntinodeAmount | day8/src/lib.rs:91-141 | the method computes the specified amount |
| Day9.Repeat | day9/src/lib.rs:154-156 | n copies of one slot, each equal to it |
| Day9.DigitsUpTo | day9/src/lib.rs:152 | definition, no contract of its own: the first n characters of the disk map are digits |
| Day9.Start | day9/src/lib.rs:164 | definition, no contract of its own: the first slot digit t describes: the digits before it added up |
| Day9.BlockOf | day9/src/lib.rs:153-163 | definition, no contract of its own: what each slot of digit t holds: file t / 2 at an even place, nothing at an odd one |
| Day9.EntriesUpTo | day9/src/lib.rs:151-167 | definition, no contract of its own: the slots pushed after the first n digits: digit t pushes that many slots holding what its place says |
| Day9.GroupsUpTo | day9/src/lib.rs:157 | definition, no contract of its own: the file sizes recorded after the first n digits: the digit at an even place t under the id t / 2 |
| Day9.SpacesUpTo | day9/src/lib.rs:164 | definition, no contract of its own: the free-run sizes recorded after the first n digits: the digit at an odd place under the index of the first slot of its run |
| Day9.StartMonotone | day9/src/lib.rs:147-169 | each digit's blocks begin no earlier than the previous digit's end |
| Day9.DecodeLength | day9/src/lib.rs:147-169 | the decoded disk has as many slots as the digits add up to |
| Day9.DecodeEntryAt | day9/src/lib.rs:153-165 | every slot that digit t pushes holds file t / 2 at an even place and nothing at an odd one |
| Day9.DecodeGroupAt | day9/src/lib.rs:157 | the size of file t / 2 is the digit at the even place t |
| Day9.DecodeGroupKey | day9/src/lib.rs:157 | every recorded file id comes from a digit of the line |
| Day9.DecodeSpaceAt | day9/src/lib.rs:164 | a free run is recorded under the index of its first slot, with its length when that is not zero |
| Day9.DecodeSpaceKey | day9/src/lib.rs:164 | every recorded free-run key is the first slot of some odd-place digit |
| Day9.RepeatCount | day9/src/lib.rs:154-156 | n copies of x hold n copies of x and none of anything else |
| Day9.DecodeFileKnown | day9/src/lib.rs:153-158 | every file that appears in the slots has a recorded size |
| Day9.DecodeFileNew | day9/src/lib.rs:153-158 | a file id appears in no slot before its own digit |
| Day9.DecodeFileCount | day9/src/lib.rs:153-158 | each recorded file size is the number of slots that hold the file |
| Day9.DecodeSizes | day9/src/lib.rs:147-169 | after reading, every file in the slots has a size and every size counts its file's slots, so `fragment`'s lookups cannot fail |
| Day9.FilesKnown | day9/src/lib.rs:37-38 | definition, no contract of its own: every file in the slots has a recorded size, as the `unwrap` of its size relies on |
| Day9.SizesMatch | day9/src/lib.rs:157 | definition, no contract of its own: every recorded size is the number of slots of that file |
| Day9.PermutedSizes | day9/src/lib.rs:31-60 | rearranging the slots keeps the recorded sizes known and correct |
| Day9.SwapRange | day9/src/lib.rs:62-66 | swapping two ranges keeps the disk's length |
| Day9.SwapRangePermutes | day9/src/lib.rs:62-66 | swapping two ranges only moves slots |
| Day9.SwapRangeAt | day9/src/lib.rs:62-66 | after swapping two disjoint ranges, each range holds what the other held and every other slot is unchanged |
| Day9.SpacesAfter | day9/src/lib.rs:68-79 | the count is a maximal run of free slots starting at the index: every slot in it is free and the slot after it, if any, holds a file |
| Day9.RunFits | day9/src/lib.rs:49-57 | a free run before a file slot that holds the file ends inside the disk and the file's size is at most its index |
| Day9.InnerStep | day9/src/lib.rs:41-58 | one turn of the inner loop keeps the disk's length and the file slot's bound |
| Day9.Inner | day9/src/lib.rs:41-58 | the inner loop keeps the disk's length |
| Day9.InnerStepPermutes | day9/src/lib.rs:41-58 | one turn of the inner loop only moves slots |
| Day9.InnerPermutes | day9/src/lib.rs:41-58 | the inner loop only moves slots |
| Day9.Outer | day9/src/lib.rs:32-59 | the outer loop keeps the disk's length |
| Day9.OuterPermutes | day9/src/lib.rs:32-59 | the outer loop only moves slots |
| Day9.Fragmented | day9/src/lib.rs:31-60 | compaction keeps the length and the multiset of slots, and every file in them still has a recorded size |
| Day9.FragmentedKeepsSizes | day9/src/lib.rs:31-60 | when the recorded sizes counted the slots of each file before compaction, they still do after it |
| Day9.Render | day9/src/lib.rs:16-29 | definition, no contract of its own: each free slot as `.`, each file slot as its id in decimal |
| Day9.RenderSingleDigits | day9/src/lib.rs:16-29 | with single-digit ids, the picture has one character per slot: "." for a free slot and the id's digit for a file slot |
| Day9.Filesystem.constructor | day9/src/lib.rs:148-150 | a new file system has no slots and no recorded sizes |
| Day9.Filesystem.Print | day9/src/lib.rs:16-29 | the text is the rendering of the slots |
| Day9.Filesystem.SwapElementsAt | day9/src/lib.rs:62-66 | the slots become the two ranges swapped; the size maps are unchanged |
| Day9.Filesystem.GetSpacesCountAfterIndex | day9/src/lib.rs:68-79 | the count is the maximal free run at the index |
| Day9.Filesystem.PushEntries | day9/src/lib.rs:154-156 | the slots gain count copies of the entry at the end; nothing else changes |
| Day9.Filesystem.MoveStep | day9/src/lib.rs:41-58 | one turn of the inner loop changes the slots and `next_j_index_to_test` as the specification step does |
| Day9.Filesystem.MoveFile | day9/src/lib.rs:38-58 | the inner loop for one file slot leaves the slots as the specified inner loop does |
| Day9.Filesystem.Fragment | day9/src/lib.rs:31-60 | the slots become the specified compaction, a rearrangement of the old ones; the size maps are unchanged |
| Day9.Decode | day9/src/lib.rs:147-169 | definition, no contract of its own: the slots, the file sizes and the free-space sizes the dense format describes; none when a character is not a digit |
| Day9.ReadFileSystem | day9/src/lib.rs:147-169 | reading fails exactly when a character is not a digit; otherwise the fresh file system holds the decoded slots and size maps |
| Day9.Checksum | day9/src/lib.rs:171-182 | every file slot adds its index times its file id in full: no such product exceeds the checksum |
| Day9.CalculateChecksum | day9/src/lib.rs:171-182 | the checksum is the sum of index times file id over the file slots |
| Day9.SmallEntries | day9/src/lib.rs:194-203 | "12345" decodes to the slots 0..111....22222 |
| Day9.DecodeExample | day9/src/lib.rs:229-251 | "12345" gives file sizes 1, 3, 5 and free runs {1: 2, 6: 4} |
| Day9.PrintExample | day9/src/lib.rs:194-203 | the example disk prints as 0..111....22222 |
| Day9.SwapSmall | day9/src/lib.rs:205-216 | swapping 3 slots at 3 and 10 gives the expected slots |
| Day9.SwapExample | day9/src/lib.rs:205-216 | the swapped example prints as 0..222....11122 |
| Day9.SpacesExample | day9/src/lib.rs:218-227 | the free run at slot 6 of the example is 4 long |
| Day10.ReadLine | day10/src/lib.rs:48-50 | a line reads exactly when every character is a digit, giving one height per character, each below 10 |
| Day10.RowText | day10/src/lib.rs:48-50 | the printed row of heights has one character per height and no line break |
| Day10.ReadLineOfRowText | day10/src/lib.rs:48-50 | reading a printed row of heights gives the row back |
| Day10.ReadAllLines | day10/src/lib.rs:52-62 | reading succeeds exactly when every line is all digits; there is then one row per line, each the reading of its line |
| Day10.ReadRowsBack | day10/src/lib.rs:52-62 | printing rows of heights one per line and reading them back gives the rows |
| Day10.Width | day10/src/lib.rs:23-25 | definition, no contract of its own: the length of the first row |
| Day10.Height | day10/src/lib.rs:27-29 | definition, no contract of its own: the number of rows |
| Day10.IsPositionInMap | day10/src/lib.rs:68-73 | a position in the map names a cell, since every row is at least as wide as the first |
| Day10.GetIntAtPosition | day10/src/lib.rs:31-33 | a height inside the map is a digit |
| Day10.WellFormed | day10/src/lib.rs:23-33 | definition, no contract of its own: a first row to take the width from, every row at least that wide, and heights that are digits, as the reads of row 0 and of cells rely on |
| Day10.Rank | day10/src/lib.rs:75-99 | the four directions are ranked 0 to 3 |
| Day10.ClimbingOf | day10/src/lib.rs:79-97 | of two neighbours, exactly those one unit higher are kept, in their order |
| Day10.Adjacent | day10/src/lib.rs:79-97 | definition, no contract of its own: one of the four neighbours: north, east, south or west |
| Day10.Climbs | day10/src/lib.rs:80-96 | definition, no contract of its own: the neighbour lies in the map one unit higher |
| Day10.AscendingAround | day10/src/lib.rs:75-99 | the result holds exactly the neighbours of the position, inside the map, one unit higher |
| Day10.AscendingOrder | day10/src/lib.rs:75-99 | the climbing neighbours come in the order north, east, south, west |
| Day10.PairRanks | day10/src/lib.rs:79-97 | two directions checked one after the other stay in their order |
| Day10.ConcatRanks | day10/src/lib.rs:75-99 | the north and east neighbours followed by the south and west ones stay in direction order |
| Day10.AscendingDistinct | day10/src/lib.rs:75-99 | no neighbour is listed twice |
| Day10.TrailHeight | day10/src/lib.rs:107-124 | along a trail the height at each cell is 9 minus the steps left to the end |
| Day10.IsTrail | day10/src/lib.rs:107-124 | definition, no contract of its own: a hiking trail: at least two cells of the map, each a neighbour of the one before it and one unit higher, the last at height 9 |
| Day10.Prepend | day10/src/lib.rs:120 | every trail of the neighbour gains the current position at its front |
| Day10.Trails | day10/src/lib.rs:107-124 | every trail `explore_trail` finds from a position starts there and is at least two cells long |
| Day10.TrailsVia | day10/src/lib.rs:110-122 | the trails found through the first k climbing neighbours start at the position |
| Day10.TrailsAt | day10/src/lib.rs:111-121 | the trails through one climbing neighbour start at the position and then visit that neighbour |
| Day10.TrailCons | day10/src/lib.rs:107-124 | a climbing neighbour in front of a trail makes a trail |
| Day10.TrailsSound | day10/src/lib.rs:107-124 | everything the search counts is a hiking trail |
| Day10.TrailsViaSound | day10/src/lib.rs:110-122 | the trails through the first k neighbours are hiking trails |
| Day10.TrailsAtSound | day10/src/lib.rs:111-121 | the trails through one neighbour are hiking trails |
| Day10.TrailsComplete | day10/src/lib.rs:107-124 | every hiking trail starting at the position is counted |
| Day10.TrailsViaHas | day10/src/lib.rs:110-122 | a trail through one of the first n neighbours is among those found through them |
| Day10.TrailsAtComplete | day10/src/lib.rs:111-121 | every hiking trail through a neighbour is among those found through it |
| Day10.TrailsDistinct | day10/src/lib.rs:107-124 | no trail is counted twice, so the score counts distinct trails (the dedup of summits is commented out at line 112) |
| Day10.TrailsViaDistinct | day10/src/lib.rs:110-122 | the trails through the first k neighbours have no repeats and visit none of the later neighbours second |
| Day10.TrailsViaStep | day10/src/lib.rs:110-122 | one more neighbour keeps the trails found distinct |
| Day10.TrailsAtDistinct | day10/src/lib.rs:111-121 | the trails through one neighbour have no repeats |
| Day10.Summits | day10/src/lib.rs:114 | one summit per trail: its last cell |
| Day10.SummitsConcat | day10/src/lib.rs:110-122 | the summits of two runs of trails are the summits of each, in order |
| Day10.SummitsPrepend | day10/src/lib.rs:120 | putting a cell in front of trails does not change their summits |
| Day10.ExploreTrail | day10/src/lib.rs:107-124 | the summits found are the earlier ones followed by the last cells of the trails from the position, and the score grows by the number of those trails, one per summit pushed |
| Day10.ExploreNeighbour | day10/src/lib.rs:111-121 | one neighbour adds the summits and the number of the trails through it |
| Day10.ReadLineExample | day10/src/lib.rs:151-161 | the row "8765" reads as 8, 7, 6, 5 |
| Day10.AscendingExample | day10/src/lib.rs:176-187 | from (2, 0) of the small map the climbing neighbours are (3, 0) and then (2, 1) |
| Day10Scores.ColumnZeros | day10/src/lib.rs:38-42 | the inner loop collects only trailheads |
| Day10Scores.IsTrailhead | day10/src/lib.rs:39 | definition, no contract of its own: a cell of the map at height 0 |
| Day10Scores.ColumnMajor | day10/src/lib.rs:37-38 | definition, no contract of its own: one position comes before another when the map is read column by column |
| Day10Scores.InScanOrder | day10/src/lib.rs:37-43 | definition, no contract of its own: positions listed strictly in that order |
| Day10Scores.ZerosBefore | day10/src/lib.rs:37-43 | the columns before w give only trailheads |
| Day10Scores.Trailheads | day10/src/lib.rs:35-45 | `get_trailheads` gives only cells of height 0 |
| Day10Scores.ScanOrderConcat | day10/src/lib.rs:37-43 | two runs of positions in column-major order, the first wholly before the second, stay in order together |
| Day10Scores.ColumnZerosMeaning | day10/src/lib.rs:38-42 | the inner loop collects exactly the height-0 cells of column i above row n, top to bottom |
| Day10Scores.ZerosBeforeMeaning | day10/src/lib.rs:37-43 | the columns before w give exactly their height-0 cells, in column-major order |
| Day10Scores.ScanOrderDistinct | day10/src/lib.rs:35-45 | positions in strict column-major order have no repeats |
| Day10Scores.TrailheadsMeaning | day10/src/lib.rs:35-45 | the trailheads are exactly the cells of height 0, column by column and top to bottom, each once |
| Day10Scores.GetTrailheads | day10/src/lib.rs:35-45 | the nested loops compute the specified trailheads |
| Day10Scores.SumTrailheadScoresConcat | day10/src/lib.rs:64-66 | the sum over two lists is the sum of the sums |
| Day10Scores.SumTrailheadScores | day10/src/lib.rs:64-66 | every score counts in full towards the sum: none exceeds it |
| Day10Scores.AllInMap | day10/src/lib.rs:130-134 | definition, no contract of its own: every listed position lies in the map |
| Day10Scores.ScoresOf | day10/src/lib.rs:130-134 | one score is recorded per trailhead explored |
| Day10Scores.TrailsOfHeads | day10/src/lib.rs:130-134 | definition, no contract of its own: the trails from each listed trailhead, by its index in the list |
| Day10Scores.HikingTrails | day10/src/lib.rs:126-139 | definition, no contract of its own: all the trails of the map, trailhead by trailhead in scan order |
| Day10Scores.SumOfScores | day10/src/lib.rs:126-139 | the sum of the scores is the number of trails from all the trailheads |
| Day10Scores.FindScoreSumForLittleReindeer | day10/src/lib.rs:126-139 | the answer is the number of hiking trails of the map |
| Day10Scores.HikingTrailsSound | day10/src/lib.rs:126-139 | everything counted is a hiking trail starting at height 0 |
| Day10Scores.HikingTrailsComplete | day10/src/lib.rs:126-139 | every hiking trail starting at height 0 is counted |
| Day10Scores.TrailsOfHeadsDistinct | day10/src/lib.rs:130-134 | no trailhead's trails repeat |
| Day10Scores.TrailsOfHeadsDisjoint | day10/src/lib.rs:130-134 | two different trailheads share no trail |
| Day10Scores.HikingTrailsDistinct | day10/src/lib.rs:126-139 | no trail is counted twice |
| Day10Scores.ScoreSumMeaning | day10/src/lib.rs:126-139 | the trails counted are exactly the hiking trails from height 0 to 9, each once, so the answer is the map's total trail rating |
| Day10Scores.TrailheadsExample | day10/src/lib.rs:163-174 | the map whose only 0 is at (1, 0) has that one trailhead |
| Day10Scores.SumExample | day10/src/lib.rs:189-198 | scores 3 and 5 sum to 8 |
| Text.Split | day2/src/lib.rs:12 | splitting gives at least one piece and no piece holds the separator |
| Text.JoinOfSplit | day5/src/lib.rs:8-24 | joining the pieces with the separator gives the text back |
| Text.SplitWithoutSeparator | day5/src/lib.rs:8-10 | a text without the separator is one piece |
| Text.SplitAtSeparator | day5/src/lib.rs:8-10 | the text before the first separator is the first piece |
| Text.SplitOfJoin | day2/src/lib.rs:11-14 | splitting pieces joined by a separator they do not hold gives the pieces back |
| Text.Join | day2/src/lib.rs:12 | definition, no contract of its own: pieces glued back with the separator, the inverse of the split |
| Text.Lines | day1/src/lib.rs:37 | `str::lines`: the lines hold no line feed, a trailing empty piece is dropped, and a carriage return before a line feed is removed |
| Text.StripCR | day1/src/lib.rs:37 | definition, no contract of its own: a line without one trailing carriage return, as `str::lines` drops it |
| Text.PlainLine | day1/src/lib.rs:37 | definition, no contract of its own: a line without a line break and without a trailing carriage return, so that `str::lines` reads it back |
| Text.LinesOfNewlineTerminated | day4/src/lib.rs:44 | the lines of a text written line by line with line feeds are the lines written |
| Text.TrimStart | day1/src/lib.rs:64 | trimming the front leaves no leading whitespace |
| Text.TrimEnd | day1/src/lib.rs:64 | trimming the end leaves no trailing whitespace |
| Text.Trim | day1/src/lib.rs:64 | the trimmed text neither begins nor ends with whitespace |
| Text.IsWhitespace | day1/src/lib.rs:64 | definition, no contract of its own: `char::is_whitespace`: the Unicode White_Space characters |
| Text.AllWhitespace | day1/src/lib.rs:64 | definition, no contract of its own: every character is whitespace |
| Text.TrimStartDropsWhitespace | day1/src/lib.rs:64 | trimming the front removes a whitespace prefix only |
| Text.TrimEndDropsWhitespace | day1/src/lib.rs:64 | trimming the end removes a whitespace suffix only |
| Text.TrimIsInfix | day5/src/lib.rs:47 | the trimmed text is the original with whitespace removed from both ends only |
| Text.TrimStartOfPadded | day1/src/lib.rs:64 | leading whitespace in front of a word is removed |
| Text.TrimEndOfPadded | day1/src/lib.rs:64 | trailing whitespace after a word is removed |
| Text.TrimOfPadded | day1/src/lib.rs:64 | a word padded with whitespace on both sides trims to the word |
| Text.DigitValue | day10/src/lib.rs:49 | a decimal digit's value is below 10 |
| Text.IsDigit | day10/src/lib.rs:49 | definition, no contract of its own: a decimal digit |
| Text.AllDigits | day3/src/lib.rs:60-62 | definition, no contract of its own: every character is a decimal digit |
| Text.DigitsValue | day7/src/lib.rs:17 | definition, no contract of its own: the value of a string of decimal digits, most significant first |
| Text.DigitChar | day9/src/lib.rs:22 | the character printed for a value below 10 is a digit of that value |
| Text.NatToString | day7/src/lib.rs:12-13 | `to_string` of a natural number is a non-empty run of digits without a leading zero |
| Text.IntToString | day1/src/lib.rs:66 | definition, no contract of its own: `to_string` of a signed number: a minus sign before a negative one |
| Text.DigitsValueOfNatToString | day7/src/lib.rs:12-13 | the printed digits of n denote n |
| Text.DigitsValueOfConcat | day7/src/lib.rs:11-17 | the digits of a followed by those of b denote a times a power of ten plus b |
| Text.ParseNat | day3/src/lib.rs:60-62 | parsing succeeds exactly on a non-empty run of digits, with at most one leading plus |
| Text.ParseInt | day1/src/lib.rs:66 | parsing a signed number agrees with the unsigned parse on a text that starts with a digit, and fails on the empty text |
| Text.ParseNatOfNatToString | day7/src/lib.rs:11-17 | parsing a printed natural number gives it back |
| Text.ParseIntOfNatToString | day5/src/lib.rs:32 | parsing a printed natural number as a signed one gives it back |
| Text.ParseIntOfIntToString | day1/src/lib.rs:66 | parsing a printed integer gives it back |
| Text.ParseIntOfNegative | day2/src/lib.rs:13 | a minus sign in front of a number parses as its negation |
| Text.IntToStringShape | day2/src/lib.rs:11-14 | a printed integer is non-empty, holds no blank or comma, and has no whitespace at either end |
| Text.FindChar | day1/src/lib.rs:62 | `find` returns the first index of the character, and nothing exactly when it is absent |
| Text.FindCharAt | day3/src/lib.rs:58-62 | `find` answers k when the character sits at k and nowhere before |
| Text.FindCharAfter | day1/src/lib.rs:62 | in a text without the character followed by one starting with it, the first occurrence is right after the first part |
| Text.AllSome | day10/src/lib.rs:49 | collecting results succeeds exactly when every result does, keeping each value in order |
| Text.NoDuplicatesConcat | day10/src/lib.rs:75-99 | two repeat-free lists with nothing in common join without repeats |
| Text.ConcatOfEmpty | day8/src/lib.rs:119-138 | concatenating only empty lists gives the empty list |
| Text.ConcatHas | day10/src/lib.rs:130-134 | an element of any of the first n lists is in their concatenation |
| Text.ConcatFrom | day10/src/lib.rs:130-134 | every element of the concatenation comes from one of the lists |
| Text.ConcatDistinct | day10/src/lib.rs:130-134 | repeat-free lists that share nothing concatenate without repeats |
| Text.CountWhere | day2/src/lib.rs:30-39 | a count of matching elements is at most the length |
| Text.CountWhereIsPositions | day2/src/lib.rs:30-39 | the count of matching elements is the number of positions that match |
| Text.DistinctCard | day8/src/lib.rs:140 | a list without repeats has as many elements as its set |
| Text.Swap | day5/src/lib.rs:99 | `Vec::swap` exchanges the two entries and leaves the rest |
| Text.CountIsMultiplicity | day9/src/lib.rs:31-60 | counting occurrences agrees with the multiset multiplicity |
| Text.CountConcat | day9/src/lib.rs:153-165 | occurrences in a joined list add up |
| Text.CountIn | day9/src/lib.rs:153-165 | an element is present exactly when it occurs at least once |
| Text.PermutationTrans | day5/src/lib.rs:94-105 | a permutation of a permutation is a permutation |
| Text.PermutationMultiset | day5/src/lib.rs:94-105 | permutations have the same multiset |
| Text.SwapPermutes | day5/src/lib.rs:99 | a swap is a permutation |

## Left out

- The regular expressions of day 3 (`find_first_pattern_in_string`, `day3/src/lib.rs:7-21`) are not modelled: the crate's regex engine is a parameter `firstMatch`, and only what the scan needs of it (a match lies inside the text it was given) is assumed of that parameter through a `requires`.
- Console output (`println!`) is left out everywhere; `print_map` and `print_map_with_valid_obstructions` of day 6 only print, so they are left out too.
- The `_old` variants of day 6 (`find_all_possible_obstructions_old`, `find_all_possible_obstructions_old_2`) and the commented-out code (the old `fragment` of day 9 at lines 81-145, the summit check of day 10 at line 112) are not modelled; the model follows the code that is compiled.
- The scaffold `add` functions of days 7, 9 and 10 and the `it_works` tests are left out; day 7's `add` and `multiply` are modelled as plain functions without a contract of their own.
- Day6Walks: the walks that the source runs until the guard leaves the grid take a `fuel` bound (the number of turns allowed) and give None when it runs out, so a walk that never ends is not distinguished from one that is longer than the fuel.
- Day6Walks: the walks (`Start`, `LocateGuard`, the patrol, the two loop tests and the obstruction search) require a square grid. On a grid taller than wide, `find_guard` finds only a guard in the top rows and the walk stops at row = width, because `is_position_inside_of_map` bounds y by the width of row 0 (day6/src/lib.rs:107-112); on a wider grid `find_guard` or the walk reads outside the grid and panics. Neither case is modelled.
- FirstGuardFromMeaning: proved for square maps only. On other maps the scan stops with None at the first read `map[j][i]` outside the map, as the source panics there, and that read can come before the first guard; `Day6.FirstGuardOfWideGrid` shows such a map, and `Day6.FirstGuardFrom` still promises that any guard found is a guard on the map.
- FirstGuardMeaning: proved for square maps only, for the same reason: on a wider map `find_guard` can panic although a guard is present (`Day6.FirstGuardOfWideGrid`).
- Integer widths are not modelled: the model works on unbounded integers where the source uses `i32`, `u32`, `u64` or `usize`, so the sums of days 1, 2, 5, 7, 8 and 10 never overflow.
- Day3.Mul: the product has no 32-bit bound. The regular expression admits factors of up to nine digits, whose product can leave the `i32` range, where a debug build of the source panics and a release build wraps around; the model gives the mathematical product, and the sum likewise.
- Day9.CalculateChecksum: the checksum has no 64-bit bound; the source's `u64` sum would overflow only on disks far larger than a puzzle input.
- `Day4.AsUsize` is the one conversion whose wrap-around matters (a negative `i32` cast to `usize`), and it is written out.
- Panics are modelled as a `None` result where the failing input can come from the puzzle text (a character that is not a digit, a missing separator, an empty map in day 8, a row narrower than row 0 in day 4), and as a `requires` where the source relies on a value it built itself (a recorded file size in day 9, an index inside the disk). Day 10 is the exception for the empty map: its `Topography` requires at least one row, because `get_width` reads row 0 (day10/src/lib.rs:23-25).
- Day9.Filesystem.SwapElementsAt: requires both ranges to lie inside the disk; the source panics on an index past the end, and `fragment` never calls it so.
- The iteration order of Rust's `HashMap` and `HashSet` is not modelled: day 8's table of antennas is a map together with the list of frequencies in the order they were first met, and day 9's size maps are Dafny maps.
- Grids with rows of different lengths: day 4 bounds the column by the width of row 0 as the source does, and a read that passes that check but lands past the end of a narrower row is the source's index panic, modelled as a `None` answer (`Day4.NarrowGridPanics`; the jagged `Day4.CrossGrid` is searched without one). Day 8 uses the width of row 0 as the source does, and day 10's `Topography` requires at least one row, every row at least as wide as row 0 and every height a digit, which is what `read_map` produces from a non-empty rectangular input.
- Day8.PairAntinodes: two antennas at the same position give no antinode; the source never pairs an antenna with itself, so this case does not arise from a scan.
- Day2: the report `1 2 3 10 4 5` is judged unsafe by `is_report_safe` although removing the `10` makes it safe; the model follows the code (`Day2.ExampleOneRemovalMissed`, `Day2.ExampleRemovalMends`).
- Day 4's nested loops are split into the methods `SearchCell`, `SearchRow` and `SearchGrid`, one per loop.
- Only some of the unit tests in the sources' test modules are stated as example lemmas, those named in the table above. The others are not. Among them are the tests on whole puzzle examples, whose proofs would unfold the example step by step beyond the verifier's budget: day 4's 10-by-10 example with its 9 X-MAS shapes (lines 209-225), day 5's 2 and 123, day 6's tests (lines 532-834), day 7's 11387 (three of its lines are proved, giving 346), day 8's 34, day 9's disk `2333133121414131402` (its picture and the checksum 2858 after `fragment`), and day 10's 81 and 2.
- The tests named `la_patente` and `expecting_la_patente_to_fail` check placeholder values that the code is not meant to produce, so they are left out, and so is day 9's disabled fragment test at lines 253-264.
