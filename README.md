# Advent of Code harness and solutions, modelled in Dafny

This project models a Rust Advent of Code repository. It covers the harness and the solutions to
2015 days 1–3 and 5–8 and 2023 days 1–11.

The harness has three parts:
- a registry of `Challenge` records (year, day, part, solution function, fixtures, skip flag);
- their identity, ordering and label;
- the fixture runner and its summary text.

`main` selects challenges by year and day. It runs every selected challenge's fixtures. Unless
only the fixtures were asked for, it then runs each challenge on its puzzle input file. Two small
utilities, a counting multiset (`Counter`) and a two-way map (`TwoWayHashMap`), are modelled as
classes.

Each solution is a function from the puzzle text to a number or an error. The model keeps its
parsing, its error paths and its Rust panics. A panic (an `unwrap` on `None`, an out-of-bounds
index, an overflowing shift) becomes an error whose message starts with `panic:`. An integer parse
fails with the kind and the message of Rust's `ParseIntError`.

A loop in the source becomes a Dafny `method` with its invariants. The method is proved equal to a
specification function, and the lemmas are stated about that function. Objects the source mutates
become classes: the 2015 light grid, the memoising 2015 circuit, `Counter` and `TwoWayHashMap`. Three places
where the code does not do what it evidently intends are modelled twice: once as written, and once
corrected (see "Findings").

The project is one module per file: `outcomes`, `text`, `numbers`, `positions`, `sorting`,
`counter`, `two_way`, `common`, `line_sums`, `main_program`, and one `y<year>_day<nn>` file per
solution.

## Model

| member | source | states |
|---|---|---|
| Common.Cmp | src/common.rs:104-126 | the order is `Equal` exactly when year, day and part agree (`PartialEq`) |
| Common.CmpMatchesKey | src/common.rs:104-126 | the order is the lexicographic order on (year, day, part), both for "not greater" and for "less" |
| Common.CmpAntisymmetric | src/common.rs:104-126 | `a < b` exactly when `b > a` |
| Common.CmpTransitive | src/common.rs:104-126 | the order is transitive |
| Common.Label | src/common.rs:51-56 | the label starts with the year and " :: Day " |
| Common.LabelRoundTrip | src/common.rs:51-56 | year, day (zero-padded to two digits) and part can be read back from the label |
| Common.LabelInjective | src/common.rs:51-56 | two challenges with the same label have the same identity |
| Common.PadTwoDigits | src/common.rs:53 | `{:0>2}` padding keeps a digit string's value |
| Common.Classify | src/common.rs:64-77 | one fixture is `Equal` exactly when the solution returns the expected value, `NotEqual` (with input, expected and got) when it returns another value, and `Other` with the error when it fails |
| Common.UnitTest | src/common.rs:58-80 | one result per fixture, in fixture order, each the classification of that fixture's run |
| Common.UnitTestEqualIff | src/common.rs:58-80 | fixture `i` passes exactly when the solution returns its expected value |
| Common.NPassed | src/common.rs:141 | the number of passing results is at most the number of results |
| Common.AllPassedIff | src/common.rs:141-142 | "all passed" holds exactly when every result is `Equal` |
| Common.Failures | src/common.rs:156-158 | the failing indices, in order: each is an index of a non-`Equal` result, and there are as many as results minus passes |
| Common.Summary | src/common.rs:133-181 | a skipped challenge prints its label and "(skipped)"; otherwise the label, then "passed/total", then a check mark when all passed |
| Common.Idt | src/common.rs:207-213 | `idt(level)` is `2 * level` spaces |
| Common.FirstDuplicate | src/common.rs:23-30 | the position of the first challenge whose identity appeared earlier; all before it are distinct |
| Common.AllChallenges | src/common.rs:22-36 | an error exactly when two challenges share an identity, with the message naming the first repeated one; otherwise each registry index exactly once, sorted strictly ascending by `Cmp` |
| Common.SortedStrict | src/common.rs:32-33 | sorting distinct challenges by key gives a strictly ascending order |
| Common.RangePermutation | src/common.rs:32 | a permutation of the indices holds each index once |
| Sorting.SortInPlace | src/common.rs:33 | `sort`: the array ends sorted by the key and is a permutation of what it held |
| Sorting.ReverseInPlace | src/util/counter.rs:26 | `reverse`: position `k` holds what position `len - 1 - k` held |
| Sorting.SortDescending | src/util/counter.rs:25-26 | `sort` then `reverse`: non-increasing and a permutation of the input |
| Sorting.SortByKey | src/years/y2023/day07.rs:52 | the reference sort: a permutation of the input, sorted by the key (its stability is `SortByKeyStable`) |
| Sorting.SortByKeyStable | src/years/y2023/day05.rs:69 | `sort_by_key` is stable: the elements that share a key keep their relative order |
| Sorting.SortedUnique | src/years/y2023/day07.rs:52 | two arrangements of the same hands, both sorted by an injective key, are equal |
| Sorting.ReverseOfNonDecreasing | src/util/counter.rs:25-26 | reversing a non-decreasing list gives a non-increasing one |
| MainProgram.Select | src/main.rs:26-41 | `filter` keeps exactly the challenges whose year and day match the given ones, in order |
| MainProgram.SelectKeepsOrder | src/main.rs:26-41 | filtering a strictly ascending list keeps it strictly ascending |
| MainProgram.RunInputs | src/main.rs:64-74 | an error exactly when some input file cannot be read, reporting the first such read; otherwise one result per selected challenge, each its solution run on its file |
| MainProgram.Run | src/main.rs:23-98 | a duplicate registration is an error; otherwise the selection is every challenge matching the filters, strictly ascending. It then either reports no challenges, or the fixture results of every selected challenge, plus, unless only the fixtures were asked for, the run of each one on its input |
| Counters.ValuesOf | src/util/counter.rs:24 | the values of the count map, as a multiset, each once per key |
| Counters.Counter.constructor | src/util/counter.rs:7-9 | a new counter is empty |
| Counters.Counter.From | src/util/counter.rs:36-42 | `from`: a new counter that has added the keys in order, each key counting its occurrences among them |
| Counters.Counter.Get | src/util/counter.rs:19-21 | a missing key counts 0 |
| Counters.Counter.Add | src/util/counter.rs:11-17 | the key's count goes up by one, every other count stays |
| Counters.Counter.SortedCounts | src/util/counter.rs:23-28 | the counts, non-increasing, as a permutation of the count map's values; they sum to the number of keys added and are each at least 1 |
| Counters.GetCounts | src/util/counter.rs:11-21 | each key's count is its number of occurrences among the keys added |
| Counters.CountsInBag | src/util/counter.rs:23-28 | a number is among the sorted counts exactly when some key has that count |
| TwoWay.TwoWayHashMap.constructor | src/util/two_way.rs:9-14 | both maps start empty |
| TwoWay.TwoWayHashMap.Insert | src/util/two_way.rs:15-17 | only the a-to-b map is updated; the b-to-a map is left as it was |
| TwoWay.TwoWayHashMap.ContainsA | src/util/two_way.rs:18-20 | true exactly when `a` has a mapping |
| TwoWay.TwoWayHashMap.ContainsB | src/util/two_way.rs:21-23 | true exactly when `b` has a mapping |
| TwoWay.TwoWayHashMap.ContainsAB | src/util/two_way.rs:24-26 | true exactly when `a` maps to `b` |
| TwoWay.TwoWayHashMap.GetA | src/util/two_way.rs:27-29 | the value `a` maps to, if any |
| TwoWay.TwoWayHashMap.GetB | src/util/two_way.rs:30-32 | the value `b` maps to, if any |
| TwoWay.TwoWayHashMap.RemoveA | src/util/two_way.rs:33-40 | returns what `a` mapped to, removes `a` and that value from the two maps, and leaves both unchanged when `a` had no mapping |
| TwoWay.TwoWayHashMap.RemoveB | src/util/two_way.rs:41-48 | the mirror image of `RemoveA` |
| TwoWay.InsertIsOneSided | src/util/two_way.rs:15-17 | after one insert of `(a, b)` into a new map, `a` maps to `b` but `b` has no mapping |
| LineSums.SumLines | src/years/y2023/day01.rs:37-43 | the sum over the lines succeeds exactly when every line succeeds |
| LineSums.SumLinesSticks | src/years/y2023/day01.rs:40 | once a line fails, `?` returns that error whatever follows |
| LineSums.SumLinesValues | src/years/y2023/day01.rs:37-43 | when every line yields a value, the result is their total |
| LineSums.Accumulate | src/years/y2023/day01.rs:37-43 | the loop computes `SumLines` over the lines of the input |
| Outcomes.CollectAll | src/years/y2023/day02.rs:21 | `collect::<Result<Vec<_>>>`: succeeds exactly when every element does, with the values in order; otherwise the first error |
| Outcomes.CollectAllSticks | src/years/y2023/day02.rs:21 | a failure in a prefix is the failure of the whole |
| Outcomes.CollectAllFailsAt | src/years/y2023/day02.rs:21 | the first failing element decides the error |
| Outcomes.AsU128 | src/years/y2015/day01.rs:37 | `as u128` on a signed value is two's complement wrap-around: equal for values in range, `2^128 + i` for negative ones |
| Text.Utf8Width | src/years/y2023/day07.rs:75 | `str::len` counts each character as 1 to 4 UTF-8 bytes, 1 exactly when it is ASCII |
| Text.Utf8Len | src/years/y2023/day07.rs:75 | the byte length `str::len` measures is at least the character count |
| Text.Utf8LenAscii | src/years/y2023/day08.rs:88 | byte length and character count agree exactly on ASCII text |
| Text.IntError | src/years/y2023/day02.rs:67 | the `ParseIntError` kind of `str::parse`: `Empty` exactly for the empty string, a negative overflow only for a signed type and a leading '-', a positive overflow only without a leading '-' |
| Text.DigitScan | src/years/y2023/day02.rs:67 | scanning the digits left to right stops at the first bad character or the first overflow, whichever comes first; an invalid digit means the text is not all digits |
| Text.DigitScanNone | src/years/y2023/day02.rs:67 | the scan finds no error exactly when every character is a digit and the value is within the bound |
| Text.ParseUnsignedError | src/years/y2023/day02.rs:67 | an unsigned parse fails exactly when the text has an error kind |
| Text.ParseSignedError | src/years/y2023/day05.rs:220-222 | a signed parse fails exactly when the text has an error kind |
| Text.IntErrorKinds | src/years/y2023/day02.rs:67 | the kinds of sample texts: "" is empty, "-5" is an invalid digit for an unsigned type and fine for a signed one, "-11" under 10 overflows negatively, "12" and "12x" overflow, "1x2" has an invalid digit |
| Y2015Day01.FloorSnoc | src/years/y2015/day01.rs:24-36 | the floor after one more character is the old floor plus its step |
| Y2015Day01.FloorCons | src/years/y2015/day01.rs:24-36 | the floor of a text is the first step plus the floor of the rest |
| Y2015Day01.Part1 | src/years/y2015/day01.rs:22-38 | an error exactly when some character is not a parenthesis, and the error is "unrecognized command " followed by the first such character; otherwise the final floor, cast `as u128` |
| Y2015Day01.Basement | src/years/y2015/day01.rs:49-68 | the answer, when there is one, is a position between 1 and the length of the text |
| Y2015Day01.BasementOk | src/years/y2015/day01.rs:49-68 | the answer `v` is the first position where the floor reaches -1, and the first `v` characters are all parentheses |
| Y2015Day01.BasementErr | src/years/y2015/day01.rs:59-67 | on an error, no all-parenthesis prefix reaches floor -1 |
| Y2015Day01.BasementErrMessage | src/years/y2015/day01.rs:59-67 | a failed search either read only parentheses and gives "Never got to floor -1", or gives "unrecognized command " followed by the first character that is not a parenthesis |
| Y2015Day01.Part2 | src/years/y2015/day01.rs:49-68 | the loop computes `Basement` from floor 0; its error is "Never got to floor -1" on all-parenthesis text, else "unrecognized command " with the first other character |
| Y2015Day01.FixturesGround | src/years/y2015/day01.rs:9-10 | "(())" and "()()" give 0 |
| Y2015Day01.FixturesThird | src/years/y2015/day01.rs:11-13 | "(((", "(()(()(" and "))(((((" give 3 |
| Y2015Day01.FixturesBasement | src/years/y2015/day01.rs:45 | ")" gives 1 and "()())" gives 5 |
| Y2015Day02.ParseBox | src/years/y2015/day02.rs:7-11 | a line parses exactly when it has at least three `x`-separated fields and the first three parse as `u128`, and the box holds those three values; otherwise the first failing step in order (field 1, field 2, field 3, each taken then parsed) decides the `unwrap` panic: the missing-field panic, or the `ParseIntError` panic of that field |
| Y2015Day02.ParseDimension | src/years/y2015/day02.rs:8 | a field parses exactly when it is a `u128` numeral; otherwise the `unwrap` panic shows the `ParseIntError` kind |
| Y2015Day02.OneField | src/years/y2015/day02.rs:9 | a line of one good field panics on the missing second field |
| Y2015Day02.TwoFields | src/years/y2015/day02.rs:10 | a line of two good fields panics on the missing third field |
| Y2015Day02.BadFirstField | src/years/y2015/day02.rs:8 | a bad first field panics with its `ParseIntError` before a missing field is noticed |
| Y2015Day02.ParseBoxes | src/years/y2015/day02.rs:3-14 | every line parses, one box per line in order, or the first failing line's error |
| Y2015Day02.ParseBoxRoundTrip | src/years/y2015/day02.rs:7-11 | "LxWxH" written from a box parses back to that box |
| Y2015Day02.Min3 | src/years/y2015/day02.rs:29 | the minimum is one of the three values and at most each of them |
| Y2015Day02.Paper | src/years/y2015/day02.rs:28-29 | a box needs at least its surface area in paper |
| Y2015Day02.Ribbon | src/years/y2015/day02.rs:47-52 | a box needs at least its volume in ribbon |
| Y2015Day02.PaperLoop | src/years/y2015/day02.rs:26-30 | the loop computes the total paper of the boxes |
| Y2015Day02.RibbonLoop | src/years/y2015/day02.rs:45-53 | the loop computes the total ribbon of the boxes |
| Y2015Day02.Part1 | src/years/y2015/day02.rs:25-33 | succeeds exactly when every line parses, with the total paper |
| Y2015Day02.Part2 | src/years/y2015/day02.rs:44-55 | succeeds exactly when every line parses, with the total ribbon |
| Y2015Day02.TotalPaperAppend | src/years/y2015/day02.rs:26-30 | the total over two lists of boxes is the sum of their totals |
| Y2015Day02.EmptyInput | src/years/y2015/day02.rs:3-14 | the empty input has no boxes and totals 0 |
| Y2015Day02.FormulaFixtures | src/years/y2015/day02.rs:21 | "2x3x4" needs 58 of paper and 34 of ribbon; "1x1x10" needs 43 and 14 (lines 21 and 40) |
| Y2015Day03.Shift | src/years/y2015/day03.rs:13-20 | each direction moves one step along its own axis: up and down change y, left and right change x |
| Y2015Day03.Parse | src/years/y2015/day03.rs:23-34 | succeeds exactly when every character is one of `^ v < >`, one direction per character |
| Y2015Day03.Houses | src/years/y2015/day03.rs:46-47 | the start house (0, 0) is always visited |
| Y2015Day03.HousesIff | src/years/y2015/day03.rs:46-52 | a house is visited exactly when some prefix of the moves ends on it |
| Y2015Day03.HousesBound | src/years/y2015/day03.rs:46-53 | between 1 and one more than the number of moves houses are visited |
| Y2015Day03.HousesSnoc | src/years/y2015/day03.rs:49-52 | one more move adds exactly the house it lands on |
| Y2015Day03.HousesCount | src/years/y2015/day03.rs:49-53 | one more move adds one to the count exactly when it lands on a new house |
| Y2015Day03.Walk | src/years/y2015/day03.rs:46-53 | the loop counts the visited houses |
| Y2015Day03.Part1 | src/years/y2015/day03.rs:45-54 | an error exactly when the input holds a bad character; otherwise the number of houses visited |
| Y2015Day03.Evens | src/years/y2015/day03.rs:70-75 | the moves with an even index, the robot's share, are half the moves rounded up |
| Y2015Day03.Odds | src/years/y2015/day03.rs:70-75 | the moves with an odd index, Santa's share, are half the moves rounded down |
| Y2015Day03.EvensOddsIndex | src/years/y2015/day03.rs:70-75 | the k-th even move is move 2k and the k-th odd move is move 2k+1 |
| Y2015Day03.SharedSnoc | src/years/y2015/day03.rs:70-78 | the next move belongs to the walker chosen by `(i + 1) % 2`, and adds the house it lands on |
| Y2015Day03.WalkTwo | src/years/y2015/day03.rs:66-79 | the loop counts the houses the two walkers visit together |
| Y2015Day03.SharedHousesBound | src/years/y2015/day03.rs:66-79 | between 1 and one more than the number of moves houses are visited |
| Y2015Day03.Part2 | src/years/y2015/day03.rs:65-80 | an error exactly when the input holds a bad character; otherwise the number of houses the two walkers visit |
| Y2015Day03.FixtureRight | src/years/y2015/day03.rs:41 | ">" visits 2 houses |
| Y2015Day03.FixtureSquare | src/years/y2015/day03.rs:41 | "^>v<" visits 4 houses |
| Y2015Day03.FixtureUpDown | src/years/y2015/day03.rs:41 | "^v^v" visits 2 houses (the fixture is ten moves long) |
| Y2015Day03.FixtureShared | src/years/y2015/day03.rs:61 | "^v" with two walkers visits 3 houses |
| Y2015Day05.CountNice | src/years/y2015/day05.rs:5-13 | the count is at most the number of lines, and 0 exactly when no line is nice |
| Y2015Day05.CountNiceSnoc | src/years/y2015/day05.rs:7-11 | one more line adds one exactly when it is nice |
| Y2015Day05.VowelsBelow | src/years/y2015/day05.rs:34-39 | the vowels among the first `n` characters are at most `n` |
| Y2015Day05.IsNice01 | src/years/y2015/day05.rs:30-70 | true exactly when the line has three vowels, a doubled letter, and none of "ab", "cd", "pq", "xy" |
| Y2015Day05.Part1 | src/years/y2015/day05.rs:72-74 | the number of lines that satisfy the three rules of part one |
| Y2015Day05.Sandwich | src/years/y2015/day05.rs:113-119 | true exactly when some letter repeats with one letter between |
| Y2015Day05.ScanPairsAsWritten | src/years/y2015/day05.rs:93-107 | the pair loop exactly as written; when it reports a repetition, some pair of letters does occur twice |
| Y2015Day05.IsNice02AsWritten | src/years/y2015/day05.rs:90-120 | `is_nice_02` as written: its pair scan and the sandwich rule; a nice line has a repeated pair and a sandwich |
| Y2015Day05.AsWrittenAcceptsOverlap | src/years/y2015/day05.rs:96-107 | as written, "aaa" passes although its only repeated pair overlaps itself |
| Y2015Day05.AsWrittenMissesSkippedPair | src/years/y2015/day05.rs:103-106 | as written, "aabab" fails although "ab" repeats without overlap and "aba" is a sandwich |
| Y2015Day05.ScanPairs | src/years/y2015/day05.rs:93-107 | the corrected pair loop: a repetition is reported exactly when some pair occurs twice without overlapping |
| Y2015Day05.NoRepetitionLeft | src/years/y2015/day05.rs:93-107 | when the corrected loop ends without a hit, no pair repeats without overlap |
| Y2015Day05.IsNice02 | src/years/y2015/day05.rs:90-120 | the corrected `is_nice_02`: true exactly when a pair repeats without overlap and a letter repeats with one between |
| Y2015Day05.Part2 | src/years/y2015/day05.rs:122-124 | the number of lines that the source's `is_nice_02` accepts |
| Y2015Day05.Part2Intended | src/years/y2015/day05.rs:122-124 | the number of lines that satisfy the two rules of part two |
| Y2015Day05.FixtureNice | src/years/y2015/day05.rs:21 | "ugknbfddgicrmopn" is nice |
| Y2015Day05.FixtureTriple | src/years/y2015/day05.rs:22 | "aaa" is nice under part one |
| Y2015Day05.FixtureNoDouble | src/years/y2015/day05.rs:23 | "jchzalrnumimnmhp" is naughty (no doubled letter) |
| Y2015Day05.FixtureNaughty | src/years/y2015/day05.rs:24 | "haegwjzuvuyypxyu" is naughty (it holds "xy") |
| Y2015Day05.FixtureOneVowel | src/years/y2015/day05.rs:25 | "dvszwmarrgswjxmb" is naughty (one vowel) |
| Y2015Day05.Fixtures2 | src/years/y2015/day05.rs:83 | under the two rules of part two, "xxyxx" is nice and "aaa" is not |
| Y2015Day05.Fixture2AsWritten | src/years/y2015/day05.rs:83 | the source's checks also accept "xxyxx" |
| Y2015Day06.Handle | src/years/y2015/day06.rs:14-20 | a command keeps a light of the same kind, and a fader light never goes below 0 |
| Y2015Day06.Brightness | src/years/y2015/day06.rs:21-27 | an on/off light is 1 when on and 0 when off; a fader light's brightness is never negative |
| Y2015Day06.ToggleLightLaws | src/years/y2015/day06.rs:14-20 | toggling twice restores the light, "turn on" and "turn off" set it, and a toggle flips it |
| Y2015Day06.FaderLightLaws | src/years/y2015/day06.rs:34-44 | "turn on" adds 1, "toggle" adds 2, and "turn off" subtracts 1 but stops at 0 |
| Y2015Day06.Uniform | src/years/y2015/day06.rs:50-52 | the new grid is 1000 by 1000 lights, all the default one |
| Y2015Day06.Changed | src/years/y2015/day06.rs:54-69 | a command keeps the grid 1000 by 1000 |
| Y2015Day06.UniformBrightness | src/years/y2015/day06.rs:71-79 | a grid of equal lights has 1000 × 1000 times their brightness |
| Y2015Day06.ApplyAll | src/years/y2015/day06.rs:164-166 | applying commands in turn keeps the grid 1000 by 1000 |
| Y2015Day06.ChangedWhole | src/years/y2015/day06.rs:54-69 | a command over the whole grid changes every light the same way |
| Y2015Day06.LightGrid.constructor | src/years/y2015/day06.rs:50-52 | the new grid holds the default light everywhere |
| Y2015Day06.LightGrid.ChangeRow | src/years/y2015/day06.rs:60-65 | the row's lights from `from.x` to `to.x` change by the action and all others stay; it fails exactly when the x range leaves the grid |
| Y2015Day06.LightGrid.Change | src/years/y2015/day06.rs:54-69 | `change`: the grid becomes `Changed` of the old grid, failing exactly when the rectangle leaves the grid (lights changed before the failing row or column stay changed) |
| Y2015Day06.LightGrid.TotalBrightness | src/years/y2015/day06.rs:71-79 | the loop sums the brightness of every light, never negative |
| Y2015Day06.LightGrid.RowTotal | src/years/y2015/day06.rs:74-76 | the inner loop sums one row |
| Y2015Day06.RunCommands | src/years/y2015/day06.rs:162-168 | succeeds exactly when every command fits on the grid, with the brightness after all of them |
| Y2015Day06.StripAction | src/years/y2015/day06.rs:104-120 | the action is the prefix the line starts with, and none when it starts with none of the three |
| Y2015Day06.ParseRange | src/years/y2015/day06.rs:82-93 | no comma is "Invalid range, no comma"; otherwise it parses exactly when both parts are `usize` numerals, and a bad part is "Error parsing <part>: " with the `ParseIntError` text |
| Y2015Day06.EmptyCoordinate | src/years/y2015/day06.rs:86-88 | "5," has an empty second part: "Error parsing : cannot parse integer from empty string" |
| Y2015Day06.ParseCommand | src/years/y2015/day06.rs:103-132 | no known prefix is "invalid prefix on command <line>"; no " through " is "invalid command <line>"; otherwise it parses exactly when both ranges do, with the prefix's action and the two ranges, and the first bad range's error |
| Y2015Day06.ParseCommands | src/years/y2015/day06.rs:156-159 | every line parses, one command per line, or the first failing line's error |
| Y2015Day06.ParseRangeRoundTrip | src/years/y2015/day06.rs:82-93 | "x,y" written from a pair parses back to it |
| Y2015Day06.ParseCommandRoundTrip | src/years/y2015/day06.rs:103-132 | a command written in the puzzle's words parses back to itself |
| Y2015Day06.Part1 | src/years/y2015/day06.rs:155-169 | succeeds exactly when every line parses and every command fits, with the number of lights on at the end; a parse error is passed on with its own message |
| Y2015Day06.Part2 | src/years/y2015/day06.rs:183-197 | the same with fader lights: their total brightness; a parse error is passed on with its own message |
| Y2015Day06.FixtureTurnOnAll | src/years/y2015/day06.rs:148 | turning on the whole grid lights 1000000 |
| Y2015Day06.FixtureToggleFirstRow | src/years/y2015/day06.rs:149 | toggling the first row lights 1000 |
| Y2015Day06.FixtureTurnOffMiddle | src/years/y2015/day06.rs:150 | turning off the middle four on a dark grid leaves 0 |
| Y2015Day06.FixtureFaderToggleAll | src/years/y2015/day06.rs:178 | toggling every fader light gives 2000000 |
| Y2015Day07.NotBits | src/years/y2015/day07.rs:107 | `!x` on a `u16` is the complement: no bit in common with `x`, and together all sixteen bits |
| Y2015Day07.ComplementLaws | src/years/y2015/day07.rs:107 | complementing twice gives the value back |
| Y2015Day07.ShiftLeft | src/years/y2015/day07.rs:106 | `<<` on a `u16` panics exactly when the shift is 16 or more; otherwise the low `n` bits are clear |
| Y2015Day07.ShiftRight | src/years/y2015/day07.rs:105 | `>>` on a `u16` panics exactly when the shift is 16 or more; otherwise the result is at most `x` |
| Y2015Day07.CombineAsWritten | src/years/y2015/day07.rs:103-106 | the two-input gates as written: `LSHIFT` computes `>>` and `RSHIFT` computes `<<` |
| Y2015Day07.Combine | src/years/y2015/day07.rs:103-106 | the two-input gates as named: `LSHIFT` shifts left and `RSHIFT` right; `AND` and `OR` agree with the source |
| Y2015Day07.ShiftRoundTrip | src/years/y2015/day07.rs:105-106 | with the intended gates, a left shift that loses no bit is undone by the right shift |
| Y2015Day07.AsWrittenSwapsShifts | src/years/y2015/day07.rs:105-106 | on the source's own sample lines, `123 LSHIFT 2` gives 30 instead of 492 and `456 RSHIFT 2` gives 1824 instead of 114 |
| Y2015Day07.ShiftFreeAgrees | src/years/y2015/day07.rs:100-109 | on a circuit without shifts, every wire's signal as written equals the intended one |
| Y2015Day07.ShiftFreeDay07 | src/years/y2015/day07.rs:152-167 | on an input without shifts, the source's answer is the intended answer |
| Y2015Day07.CircuitState.constructor | src/years/y2015/day07.rs:158 | the state starts with no wires |
| Y2015Day07.CircuitState.Apply | src/years/y2015/day07.rs:50-65 | `apply` fails exactly when the wire is already assigned, with the source's message and no change; otherwise it adds the wire with its gate and no cached value |
| Y2015Day07.CircuitState.Get | src/years/y2015/day07.rs:11-25 | `get` returns the wire's signal, an error when a wire is missing or a shift overflows; it caches the value and keeps the wiring and the cache consistent, and a cached wire is answered without change |
| Y2015Day07.CircuitState.RunGate | src/years/y2015/day07.rs:100-109 | `run` returns the gate's signal as the source computes it, left input first |
| Y2015Day07.CircuitState.RunBinary | src/years/y2015/day07.rs:103-106 | a two-input gate's signal as the source computes it (swapped shifts included) |
| Y2015Day07.CircuitState.GetValue | src/years/y2015/day07.rs:129-137 | a literal is itself; a variable is its wire's signal |
| Y2015Day07.ParseValue | src/years/y2015/day07.rs:119-128 | an error exactly when the text holds a space; a literal when it parses as a `u16`, otherwise a wire name |
| Y2015Day07.ParseGate | src/years/y2015/day07.rs:79-99 | parses exactly one word, "NOT" and one word, or three words with a known operator, into an assignment, a NOT gate or a two-input gate |
| Y2015Day07.ParseCommand | src/years/y2015/day07.rs:41-49 | parses exactly when the line has " -> " and the text before it is a gate; the wire is the text after |
| Y2015Day07.ParseCommands | src/years/y2015/day07.rs:153-156 | every line parses, one command per line, or the first failing line's error |
| Y2015Day07.ValueRoundTrip | src/years/y2015/day07.rs:119-128 | a value written out parses back to itself |
| Y2015Day07.LiteralRoundTrip | src/years/y2015/day07.rs:119-128 | a `u16` literal printed in decimal parses back to the same literal |
| Y2015Day07.GateRoundTrip | src/years/y2015/day07.rs:79-99 | a gate written out parses back to itself |
| Y2015Day07.CommandRoundTrip | src/years/y2015/day07.rs:41-49 | a command written out parses back to itself |
| Y2015Day07.Wiring | src/years/y2015/day07.rs:160-162 | the wires assigned are exactly the commands' targets |
| Y2015Day07.WiringOk | src/years/y2015/day07.rs:50-56 | applying the commands succeeds exactly when no two assign the same wire |
| Y2015Day07.WiringGates | src/years/y2015/day07.rs:57-63 | each command's wire carries that command's gate |
| Y2015Day07.WiringSticks | src/years/y2015/day07.rs:160-162 | once a command fails, the later ones do not change the error |
| Y2015Day07.ApplyAll | src/years/y2015/day07.rs:158-162 | the loop fails exactly when the wiring does, with the same message; otherwise the state holds the wiring with nothing cached |
| Y2015Day07.FreshStateValid | src/years/y2015/day07.rs:158-162 | a state with nothing cached is consistent |
| Y2015Day07.RunCircuit | src/years/y2015/day07.rs:158-166 | the signal on wire "a" of the wired circuit, as the source computes it |
| Y2015Day07.Day07 | src/years/y2015/day07.rs:152-167 | the answer of `day07_1` as a function: a bad line is that line's error, and a signal is always below 65536 |
| Y2015Day07.Part1 | src/years/y2015/day07.rs:152-167 | `day07_1`: wire "a"'s signal as the source computes it, always below 65536 |
| Y2015Day07.Fixture | src/years/y2015/day07.rs:146-147 | a two-wire circuit made of the sample's third and ninth lines, "456 -> y" and "NOT y -> a", the only lines wire "a" depends on, gives 65079; the nine-line sample text itself is not evaluated |
| Y2015Day07.ShiftFixture | src/years/y2015/day07.rs:146 | "123 -> x" and "x LSHIFT 2 -> a" give 30 as written and 492 as intended |
| Y2015Day07.UnreachedCycle | src/years/y2015/day07.rs:11-25 | a cycle that "a" does not depend on is never evaluated: "1 -> a" with "p -> q" and "q -> p" gives 1 |
| Y2015Day08.UnescapedBound | src/years/y2015/day08.rs:47-64 | the loop counts at most one character per position it passes, and nothing once it reaches the end |
| Y2015Day08.DecodedLength | src/years/y2015/day08.rs:47-64 | a quoted string decodes to at most its length minus the two quotes; a string shorter than 2 decodes to 0 |
| Y2015Day08.EscapedStrLen | src/years/y2015/day08.rs:47-64 | the loop of `escaped_str_len` computes the decoded length |
| Y2015Day08.EscapeChar | src/years/y2015/day08.rs:75-81 | a backslash or a quote becomes two characters starting with a backslash; every other character stays |
| Y2015Day08.ReplacementsEscape | src/years/y2015/day08.rs:77-78 | replacing backslashes first and then quotes escapes each character on its own |
| Y2015Day08.EncodedLength | src/years/y2015/day08.rs:75-81 | the encoded string is two longer than the input, plus one per backslash and one per quote |
| Y2015Day08.DecodeEncode | src/years/y2015/day08.rs:47-81 | decoding an encoded string gives back the input's length |
| Y2015Day08.TotalDecoded | src/years/y2015/day08.rs:67-70 | the decoded lengths total at most the code lengths |
| Y2015Day08.TotalEncoded | src/years/y2015/day08.rs:84-87 | the encoded lengths total at least the code lengths |
| Y2015Day08.Part1 | src/years/y2015/day08.rs:66-73 | the code length minus the decoded length, summed over the lines; never negative |
| Y2015Day08.Part2 | src/years/y2015/day08.rs:83-90 | the encoded length minus the code length, summed over the lines |
| Y2015Day08.EncodeAll | src/years/y2015/day08.rs:86 | each line encoded on its own |
| Y2015Day08.EncodedOverhead | src/years/y2015/day08.rs:66-90 | the part-one answer on the encoded lines is the part-two answer on the original lines |
| Y2015Day08.Part2Counts | src/years/y2015/day08.rs:83-90 | the part-two answer is two per line plus the backslashes and quotes |
| Y2015Day08.Fixtures | src/years/y2015/day08.rs:11-14 | `""` decodes to 0 characters, `"abc"` to 3 and `"\x27"` to 1 |
| Y2015Day08.FixtureEscapedQuote | src/years/y2015/day08.rs:13 | `"aaa\"aaa"` decodes to 7 characters |
| Y2015Day08.EncodedEmpty | src/years/y2015/day08.rs:32 | `""` encodes to 6 characters |
| Y2015Day08.EncodedAbc | src/years/y2015/day08.rs:33 | `"abc"` encodes to 9 characters |
| Y2015Day08.EncodedEscapedQuote | src/years/y2015/day08.rs:34 | `"aaa\"aaa"` encodes to 16 characters |
| Y2015Day08.EncodedHex | src/years/y2015/day08.rs:35 | `"\x27"` encodes to 11 characters |
| Y2015Day08.BlockFixture | src/years/y2015/day08.rs:15-20 | the four-line block gives 12 for part one and 19 for part two (lines 15-20 and 36-41) |
| Y2023Day01.NumeralsAreDigits | src/years/y2023/day01.rs:20-22 | `is_digit` holds exactly for the characters of "1234567890" |
| Y2023Day01.FirstNumeral | src/years/y2023/day01.rs:25 | the position of the first digit, or the length when there is none: every earlier character is not a digit |
| Y2023Day01.LastNumeral | src/years/y2023/day01.rs:26 | the position of the last digit, or the length when there is none: every later character is not a digit |
| Y2023Day01.TwoDigits | src/years/y2023/day01.rs:33 | formatting two digits side by side and parsing gives ten times the first plus the second |
| Y2023Day01.ParseWithDigits | src/years/y2023/day01.rs:24-35 | succeeds exactly when the line holds a digit, with the number made of its first and last digits |
| Y2023Day01.SpelledToChar | src/years/y2023/day01.rs:62-86 | succeeds exactly on the nine spelled names and the ten digits, giving a digit; a digit maps to itself |
| Y2023Day01.SpelledPrefix | src/years/y2023/day01.rs:91-93 | the spelled name the text starts with, if any |
| Y2023Day01.TokenIsSpelled | src/years/y2023/day01.rs:91-102 | a token found at a position is a prefix of the text there, and `spelled_to_char` accepts it |
| Y2023Day01.TokenDigit | src/years/y2023/day01.rs:102 | a token's digit is a digit |
| Y2023Day01.LeftmostWhere | src/years/y2023/day01.rs:93 | the leftmost position where a property holds, or the end: no earlier position has it |
| Y2023Day01.RightmostEndWhere | src/years/y2023/day01.rs:91 | one past the rightmost position where a property holds, or 0: no later position has it |
| Y2023Day01.TokenSearchFinds | src/years/y2023/day01.rs:88-103 | the search returns the first token's position, or, for `end`, the last token's position |
| Y2023Day01.TokenSearchMisses | src/years/y2023/day01.rs:97-101 | when the search finds nothing, the line holds no token |
| Y2023Day01.FindFirstSpelled | src/years/y2023/day01.rs:88-103 | succeeds exactly when the line holds a spelled name or a digit; the digit is that of the leftmost token, or with `end` of the rightmost one, overlaps included |
| Y2023Day01.ParseWithSpelled | src/years/y2023/day01.rs:105-110 | succeeds exactly when the line holds a token; the number is ten times the first token's digit plus the last token's digit |
| Y2023Day01.NumeralIsToken | src/years/y2023/day01.rs:93 | every digit is a token |
| Y2023Day01.PartOneThenPartTwo | src/years/y2023/day01.rs:24-110 | every line that part one accepts, part two accepts too |
| Y2023Day01.Part1 | src/years/y2023/day01.rs:37-43 | the sum of `parse_w_digits` over the lines, or the first failing line's error |
| Y2023Day01.Part2 | src/years/y2023/day01.rs:112-118 | the sum of `parse_w_spelled` over the lines, or the first failing line's error |
| Y2023Day01.FixtureOneTwo | src/years/y2023/day01.rs:11 | "1abc2" gives 12 |
| Y2023Day01.FixtureMiddle | src/years/y2023/day01.rs:12 | "pqr3stu8vwx" gives 38 |
| Y2023Day01.FixtureMany | src/years/y2023/day01.rs:13 | "a1b2c3d4e5f" gives 15 |
| Y2023Day01.FixtureSingleDigit | src/years/y2023/day01.rs:14 | "treb7uchet" gives 77 |
| Y2023Day01.FixtureOverlapFirst | src/years/y2023/day01.rs:52 | "eightwothree" gives 83 |
| Y2023Day01.FixtureOverlapLast | src/years/y2023/day01.rs:56 | "zoneight234" gives 14: the overlapping "one" and "eight" are both seen |
| Y2023Day02.ParsePull | src/years/y2023/day02.rs:64-73 | a pull parses exactly when it splits at a space into a `u128` and one of "red", "green", "blue", giving that count and colour; no space or another colour is "malformed turn: <turn>", and a bad count is the `ParseIntError` text |
| Y2023Day02.EmptyPullCount | src/years/y2023/day02.rs:64-67 | a pull that starts with its space is "cannot parse integer from empty string" |
| Y2023Day02.ParsePulls | src/years/y2023/day02.rs:63-74 | every pull parses, in order, or the first failing pull's error |
| Y2023Day02.ParsePullsSticks | src/years/y2023/day02.rs:63-74 | once a pull fails, the later pulls do not change the error |
| Y2023Day02.TallyLastWins | src/years/y2023/day02.rs:68-73 | a colour pulled several times keeps the count of its last pull |
| Y2023Day02.ReadPulls | src/years/y2023/day02.rs:59-74 | reading the pulls succeeds exactly when each pull parses |
| Y2023Day02.ReadPullsLastWins | src/years/y2023/day02.rs:59-74 | the count kept for a colour is that of its last pull |
| Y2023Day02.ParseTurn | src/years/y2023/day02.rs:58-81 | a turn parses exactly when its ", "-separated pulls do; a colour never pulled counts 0 |
| Y2023Day02.ParseTurnLoop | src/years/y2023/day02.rs:58-81 | the loop of `Turn::parse` computes `ParseTurn` |
| Y2023Day02.ParseGameId | src/years/y2023/day02.rs:13-16 | the head parses exactly when it is "Game " followed by a `u128`, which is the id; without "Game " it is "malformed line: <line>", and a bad id is the `ParseIntError` text |
| Y2023Day02.EmptyGameId | src/years/y2023/day02.rs:13-16 | "Game " with no number is "cannot parse integer from empty string" |
| Y2023Day02.ParseGame | src/years/y2023/day02.rs:9-24 | a parsed game has the id of its head and one turn per "; "-separated part of its body |
| Y2023Day02.ParseGameHeader | src/years/y2023/day02.rs:9-24 | "Game <id>: <body>" parses to that id and the body's turns, or the first bad turn's error |
| Y2023Day02.PullRoundTrip | src/years/y2023/day02.rs:64-73 | "<n> <colour>" parses back to that count and colour |
| Y2023Day02.TurnRoundTrip | src/years/y2023/day02.rs:58-81 | a turn written out parses back to itself |
| Y2023Day02.TurnTextsRoundTrip | src/years/y2023/day02.rs:18-21 | turns written out parse back to the same turns |
| Y2023Day02.GameRoundTrip | src/years/y2023/day02.rs:9-24 | a game written out parses back to itself |
| Y2023Day02.GamesRoundTrip | src/years/y2023/day02.rs:129-130 | games written one per line give back those lines, and each line parses to its game |
| Y2023Day02.MaxCubes | src/years/y2023/day02.rs:35-48 | for each colour: at least every turn's count, and either 0 or the count of some turn |
| Y2023Day02.MinCubes | src/years/y2023/day02.rs:35-48 | the loop of `min_cubes` computes `MaxCubes` |
| Y2023Day02.MaxCubesTwo | src/years/y2023/day02.rs:35-48 | over two turns, the colour-wise maximum |
| Y2023Day02.MaxCubesThree | src/years/y2023/day02.rs:35-48 | over three turns, the colour-wise maximum |
| Y2023Day02.PossibleIffMinimalFits | src/years/y2023/day02.rs:26-48 | a game is possible exactly when its minimal cube set fits in 12 red, 13 green and 14 blue |
| Y2023Day02.IsPossible | src/years/y2023/day02.rs:26-33 | true exactly when every turn fits in 12 red, 13 green and 14 blue |
| Y2023Day02.Part1 | src/years/y2023/day02.rs:126-137 | the sum of the ids of the possible games, or the first bad line's error |
| Y2023Day02.Part2 | src/years/y2023/day02.rs:155-162 | the sum of the powers of the minimal cube sets, or the first bad line's error |
| Y2023Day02.GameTextIsLine | src/years/y2023/day02.rs:92-97 | a game written out is one non-empty line |
| Y2023Day02.FixtureGame1 | src/years/y2023/day02.rs:99-100 | game 1 is possible, needs (4, 2, 6) and scores 1 and 48 (lines 116 and 145) |
| Y2023Day02.FixtureGame2 | src/years/y2023/day02.rs:101-102 | game 2 is possible, needs (1, 3, 4) and scores 2 and 12 |
| Y2023Day02.FixtureGame3 | src/years/y2023/day02.rs:103-104 | game 3 is impossible, needs (20, 13, 6) and scores 0 and 1560 |
| Y2023Day02.FixtureGame4 | src/years/y2023/day02.rs:105-106 | game 4 is impossible, needs (14, 3, 15) and scores 0 and 630 |
| Y2023Day02.FixtureGame5 | src/years/y2023/day02.rs:107-108 | game 5 is possible, needs (6, 3, 2) and scores 5 and 36 |
| Y2023Day02.GamesSum | src/years/y2023/day02.rs:126-162 | on games written one per line, the two answers are the totals of their ids and powers |
| Y2023Day02.SampleTotals | src/years/y2023/day02.rs:121 | the sample's possible ids total 8 and its powers 2286 (line 150) |
| Y2023Day02.SampleFixture | src/years/y2023/day02.rs:92-97 | the five-game sample gives 8 for part one and 2286 for part two |
| Y2023Day03.SymbolsBeforeHolds | src/years/y2023/day03.rs:64-75 | after the loop reaches (x, y), the map holds exactly the symbols met so far, each with its character |
| Y2023Day03.SymbolsOf | src/years/y2023/day03.rs:62-75 | the symbol map holds exactly the positions of characters other than '.' and digits, each with its character |
| Y2023Day03.ParseSymbols | src/years/y2023/day03.rs:62-75 | the nested loop builds `SymbolsOf` |
| Y2023Day03.RunEnd | src/years/y2023/day03.rs:82-98 | from `x`, the digits run up to a non-digit or the end of the row |
| Y2023Day03.RunsMaximal | src/years/y2023/day03.rs:79-101 | each digit run found is maximal: no digit just before or just after it |
| Y2023Day03.RunsOrdered | src/years/y2023/day03.rs:79-101 | the runs come left to right, separated by at least one non-digit |
| Y2023Day03.RunsCover | src/years/y2023/day03.rs:79-101 | every digit of the row lies in some run |
| Y2023Day03.RunClosed | src/years/y2023/day03.rs:91-96 | a run closes at the first non-digit after it |
| Y2023Day03.NewPartNumber | src/years/y2023/day03.rs:13-19 | succeeds exactly when the digits parse as a `u128`, with that value, the position and the length |
| Y2023Day03.RowPartsAreRuns | src/years/y2023/day03.rs:79-101 | a row's part numbers are its maximal digit runs, in order, each with its value and length |
| Y2023Day03.RowPartsOk | src/years/y2023/day03.rs:93-100 | a row parses exactly when each of its runs fits in a `u128` |
| Y2023Day03.ScanRow | src/years/y2023/day03.rs:80-101 | the row loop builds the row's part numbers, or the first run's parse error |
| Y2023Day03.SchematicPartsStep | src/years/y2023/day03.rs:79-102 | each row adds its part numbers, or its error ends the parse |
| Y2023Day03.SchematicPartsSticks | src/years/y2023/day03.rs:93-100 | once a row fails, the later rows do not change the error |
| Y2023Day03.ParseSchematic | src/years/y2023/day03.rs:59-108 | `Schematic::parse`: the symbol map and every row's part numbers, or the first bad run's error |
| Y2023Day03.SchematicPartsAreRuns | src/years/y2023/day03.rs:77-102 | every part number is a maximal digit run of its row |
| Y2023Day03.CheckedPred | src/years/y2023/day03.rs:27-29 | `checked_sub(1)` is defined exactly on positive numbers |
| Y2023Day03.SaturatingPred | src/years/y2023/day03.rs:32 | `saturating_sub(1)` takes 0 to 0 |
| Y2023Day03.Columns | src/years/y2023/day03.rs:38-41 | the loop adds two candidates per digit |
| Y2023Day03.AdjacentIndices | src/years/y2023/day03.rs:20-50 | `adjacent_indices` lists the candidates whose two coordinates exist, in order |
| Y2023Day03.ColumnsHold | src/years/y2023/day03.rs:38-41 | the loop's cells are those above and below each digit |
| Y2023Day03.AdjacentExactly | src/years/y2023/day03.rs:20-50 | a cell is listed exactly when it touches the number, diagonals included |
| Y2023Day03.EndListedTwice | src/years/y2023/day03.rs:31-34 | on row 0, `saturating_sub` lists the cell right of the number twice |
| Y2023Day03.EndsOnFirstRow | src/years/y2023/day03.rs:26-36 | on row 0 the end cells are the left pair when x > 0 and the right cell twice, then the one below it |
| Y2023Day03.NextToSymbolIff | src/years/y2023/day03.rs:137-144 | a part number is kept exactly when some symbol touches it |
| Y2023Day03.HasAdjacentSymbol | src/years/y2023/day03.rs:137-144 | the filter's loop returns true exactly when a listed cell holds a symbol |
| Y2023Day03.PartSumBounds | src/years/y2023/day03.rs:134-145 | the sum is at most the sum of all part numbers, equal to it when all are kept, and 0 when none is |
| Y2023Day03.PartSumAppend | src/years/y2023/day03.rs:134-145 | the sum over two lists of numbers is the sum of their sums |
| Y2023Day03.Part1 | src/years/y2023/day03.rs:131-148 | the sum of the part numbers next to a symbol, or the parse error |
| Y2023Day03.Gears | src/years/y2023/day03.rs:162-166 | the gears are exactly the positions of '*' symbols |
| Y2023Day03.GearParts | src/years/y2023/day03.rs:170-174 | at most all the part numbers touch a gear |
| Y2023Day03.GearPartsIff | src/years/y2023/day03.rs:170-174 | a part number is listed for a gear exactly when it touches it |
| Y2023Day03.GearPartsOf | src/years/y2023/day03.rs:170-174 | the filter's loop computes `GearParts` |
| Y2023Day03.RatioSumRemove | src/years/y2023/day03.rs:168-179 | the ratio sum is one gear's ratio plus the sum over the others, in any order |
| Y2023Day03.Part2 | src/years/y2023/day03.rs:159-182 | the sum over the gears of the product of their two part numbers, counting only gears with exactly two; an error exactly when the schematic does not parse, with the parser's own message |
| Y2023Day03.SampleNeighbours | src/years/y2023/day03.rs:111-120 | in the sample, every part number except 114 and 58 touches a symbol |
| Y2023Day03.SamplePart1 | src/years/y2023/day03.rs:127 | the sample's part numbers next to a symbol sum to 4361 |
| Y2023Day03.SampleGearFirst | src/years/y2023/day03.rs:112 | the gear at (3, 1) touches 467 and 35 |
| Y2023Day03.SampleGearSecond | src/years/y2023/day03.rs:115 | the gear at (3, 4) touches 617 alone |
| Y2023Day03.SampleGearThird | src/years/y2023/day03.rs:119 | the gear at (5, 8) touches 755 and 598 |
| Y2023Day03.SamplePart2 | src/years/y2023/day03.rs:155 | the sample's gear ratios sum to 467835 |
| Y2023Day03.SampleFirstRowRuns | src/years/y2023/day03.rs:111 | "467..114.." has the runs "467" at 0 and "114" at 5 |
| Y2023Day03.SampleFirstRow | src/years/y2023/day03.rs:111 | "467..114.." parses to the part numbers 467 and 114 |
| Y2023Day04.ListNumber | src/years/y2023/day04.rs:63 | a word parses exactly when it is a `u128`; otherwise the error is "Malformed list: " and the whole list |
| Y2023Day04.ParseNumberList | src/years/y2023/day04.rs:60-66 | a failing list reports "Malformed list: " and the list |
| Y2023Day04.NumberWordsValues | src/years/y2023/day04.rs:60-66 | the list parses exactly when each whitespace-separated word is a `u128`, one number per word in order |
| Y2023Day04.ParseCard | src/years/y2023/day04.rs:25-35 | a line without ':', or without '\|' after it, is "Malformed line: " and the line |
| Y2023Day04.NumberListRoundTrip | src/years/y2023/day04.rs:60-66 | numbers written with single spaces, whatever padding follows, parse back to themselves |
| Y2023Day04.CardRoundTrip | src/years/y2023/day04.rs:25-35 | a card written as "Card n: winners \| numbers" parses back to itself |
| Y2023Day04.MatchCountIsPositions | src/years/y2023/day04.rs:36-44 | the matches are the positions of winners that occur among the numbers (a repeated winner counts each time) |
| Y2023Day04.MatchCountBound | src/years/y2023/day04.rs:36-44 | at most one match per winner, and as many as winners exactly when every winner occurs |
| Y2023Day04.NMatches | src/years/y2023/day04.rs:36-44 | the loop of `n_matches` counts the matches |
| Y2023Day04.Pow2 | src/years/y2023/day04.rs:45-57 | a power of two is at least 1 |
| Y2023Day04.Score | src/years/y2023/day04.rs:45-57 | the loop of `score` gives 0 for no match and 2^(m-1) for m matches |
| Y2023Day04.Part1 | src/years/y2023/day04.rs:68-75 | the sum of the card scores, or the first bad line's error |
| Y2023Day04.Win | src/years/y2023/day04.rs:109-114 | one card's win changes no count's position |
| Y2023Day04.CountsAfter | src/years/y2023/day04.rs:99-115 | the counts stay one per card |
| Y2023Day04.Reached | src/years/y2023/day04.rs:99-115 | the reference count of copies: every card has at least its original |
| Y2023Day04.ReachedSettles | src/years/y2023/day04.rs:101-115 | no card wins copies of itself or of an earlier card, so a card's count is settled once the loop reaches it |
| Y2023Day04.CountsAfterReached | src/years/y2023/day04.rs:99-115 | after k cards the loop's counts are the reference counts |
| Y2023Day04.FinalCounts | src/years/y2023/day04.rs:99-115 | at the end each card holds its original plus the copies won from earlier cards, at least 1 |
| Y2023Day04.AtLeastOnePerCard | src/years/y2023/day04.rs:117 | counts of at least one each sum to at least the number of cards |
| Y2023Day04.AllMatches | src/years/y2023/day04.rs:103 | one match count per card |
| Y2023Day04.WinCopies | src/years/y2023/day04.rs:99-117 | the array loop of `day04_2` sums the final counts |
| Y2023Day04.SumArray | src/years/y2023/day04.rs:117 | the sum of the array |
| Y2023Day04.Part2 | src/years/y2023/day04.rs:93-118 | succeeds exactly when every line parses, with the total number of cards, at least one per card; otherwise the first bad line's error, with its own message |
| Y2023Day04.SampleCard1 | src/years/y2023/day04.rs:9 | card 1 has 4 matches |
| Y2023Day04.SampleCard2 | src/years/y2023/day04.rs:10 | card 2 has 2 matches |
| Y2023Day04.SampleCard3 | src/years/y2023/day04.rs:11 | card 3 has 2 matches |
| Y2023Day04.SampleCard4 | src/years/y2023/day04.rs:12 | card 4 has 1 match |
| Y2023Day04.SampleCard5 | src/years/y2023/day04.rs:13 | card 5 has no match |
| Y2023Day04.SampleCard6 | src/years/y2023/day04.rs:14 | card 6 has no match |
| Y2023Day04.SampleMatches | src/years/y2023/day04.rs:77-82 | the sample's match counts are 4, 2, 2, 1, 0, 0 |
| Y2023Day04.SamplePoints | src/years/y2023/day04.rs:9-14 | the sample cards score 8, 2, 2, 1, 0, 0 |
| Y2023Day04.SampleCopies | src/years/y2023/day04.rs:99-117 | the sample ends with 1, 2, 4, 8, 14, 1 copies, 30 in all |
| Y2023Day04.SamplePart2 | src/years/y2023/day04.rs:89 | the sample gives 30 |
| Y2023Day05.RangeRun | src/years/y2023/day05.rs:227-233 | a range maps exactly the numbers in `start..start+len`, each moved by the same offset onto `dest` |
| Y2023Day05.RangeRunBackwards | src/years/y2023/day05.rs:235-241 | the backward range maps exactly the numbers in `dest..dest+len`, moved back onto `start` |
| Y2023Day05.RangeRoundTrip | src/years/y2023/day05.rs:227-241 | running a range backwards undoes running it forwards, and the other way round |
| Y2023Day05.FirstHit | src/years/y2023/day05.rs:182-191 | the scan of a map returns the value of the first range that holds the number |
| Y2023Day05.FirstMiss | src/years/y2023/day05.rs:182-191 | when no range holds the number the map passes it through unchanged |
| Y2023Day05.FirstHitAt | src/years/y2023/day05.rs:182-191 | when some range holds the number, there is a first one and no earlier range holds it |
| Y2023Day05.MapOf | src/years/y2023/day05.rs:171-180 | the forward ranges are sorted by start and the backward ones by destination, both permutations of the parsed ranges |
| Y2023Day05.RunMap | src/years/y2023/day05.rs:182-191 | the loop of `Map::run` gives the first holding range's value, else the input |
| Y2023Day05.RunMapBackwards | src/years/y2023/day05.rs:192-207 | the loop of `Map::run_backwards` gives the first holding backward range's value, else the input |
| Y2023Day05.MapRoundTrip | src/years/y2023/day05.rs:182-207 | with destinations pairwise apart, running a map backwards undoes running it forwards |
| Y2023Day05.ParseI64 | src/years/y2023/day05.rs:220-222 | a word parses exactly when it is an `i64` numeral; otherwise the `ParseIntError` text |
| Y2023Day05.IntErrorNotPanic | src/years/y2023/day05.rs:220-222 | a `ParseIntError` text is never taken for a panic, so `Almanac::parse` wraps it |
| Y2023Day05.ParseRange | src/years/y2023/day05.rs:218-225 | a line parses exactly when its first three words are `i64`s, in the order dest, start, len; fewer words is the `unwrap` panic |
| Y2023Day05.ParseRangeRoundTrip | src/years/y2023/day05.rs:218-225 | a range written as three numbers parses back to itself |
| Y2023Day05.ParseMap | src/years/y2023/day05.rs:159-181 | an empty section or a header without "-to-" is the `unwrap` panic; a parsed map holds the parsed ranges sorted both ways |
| Y2023Day05.Pairs | src/years/y2023/day05.rs:66-67 | consecutive seeds grouped two by two |
| Y2023Day05.SeedWord | src/years/y2023/day05.rs:54-59 | a seed parses exactly when it is an `i64`, with "Error parsing <seed> - " and the `ParseIntError` text otherwise |
| Y2023Day05.SectionMap | src/years/y2023/day05.rs:71-76 | an ordinary `Map::parse` error is prefixed with "Error parsing <section> - "; a panic inside `Map::parse` (a missing header line, "-to-" or " map:") is passed on unchanged |
| Y2023Day05.HeaderPanicEscapes | src/years/y2023/day05.rs:162-165 | a section whose header has no "-to-" is the `unwrap` panic itself, not wrapped |
| Y2023Day05.RangeErrorWrapped | src/years/y2023/day05.rs:71-76 | a range line whose first number is bad gives "Error parsing <section> - " and that number's `ParseIntError` text |
| Y2023Day05.ParseAlmanac | src/years/y2023/day05.rs:46-83 | a first section without "seeds: " panics, a bad seed is its error, an odd number of seeds is "Needs an even number of seeds"; otherwise it parses exactly when every further section does, with the first failing section's error, and the seed ranges are the pairs sorted by start |
| Y2023Day05.RunAlmanac | src/years/y2023/day05.rs:85-90 | the loop of `Almanac::run` sends a seed through every map in order |
| Y2023Day05.RunAlmanacBackwards | src/years/y2023/day05.rs:92-97 | the loop of `Almanac::run_backwards` sends a location through every map in reverse |
| Y2023Day05.AlmanacRoundTrip | src/years/y2023/day05.rs:85-97 | when every map undoes itself on the values met, running backwards undoes running forwards |
| Y2023Day05.RangesContain | src/years/y2023/day05.rs:100-107 | a seed is in the ranges exactly when some `start..=start+len` holds it; an `i64` overflow of start+len panics |
| Y2023Day05.HasSeed | src/years/y2023/day05.rs:99-111 | without ranges, whether the seed is one of the seeds |
| Y2023Day05.SmallestSeedLocation | src/years/y2023/day05.rs:139-147 | the minimum of the seeds' locations, `i64::MAX` when there is no seed |
| Y2023Day05.FirstLocation | src/years/y2023/day05.rs:130-136 | the first location in `0..=max` whose seed lies in a seed range, the first panic met, or the `unwrap` panic when none |
| Y2023Day05.MaxLocation | src/years/y2023/day05.rs:118-128 | the second smallest destination of the last map: at most one destination lies below it and at least two are at most it; fewer than two ranges panics |
| Y2023Day05.SecondDest | src/years/y2023/day05.rs:124-127 | in destinations sorted ascending, the second one has at most one below it |
| Y2023Day05.NoneBelow | src/years/y2023/day05.rs:124-127 | no destination lies below the least one |
| Y2023Day05.SmallestLocation | src/years/y2023/day05.rs:113-148 | the minimum location of the seeds, or the first location whose seed lies in a range |
| Y2023Day05.Part1 | src/years/y2023/day05.rs:253-257 | a parse error, or the least seed location |
| Y2023Day05.Part2 | src/years/y2023/day05.rs:268-272 | a parse error, the panic of a short last map, or the first location reached backwards from a ranged seed |
| Y2023Day05.SortedAs | src/years/y2023/day05.rs:174-179 | sorting a sample map gives the listed order |
| Y2023Day05.FirstOfTwo | src/years/y2023/day05.rs:182-191 | a two-range map takes the first range that holds the number |
| Y2023Day05.FirstOfThree | src/years/y2023/day05.rs:182-191 | a three-range map takes the first range that holds the number |
| Y2023Day05.FirstOfFour | src/years/y2023/day05.rs:182-191 | a four-range map takes the first range that holds the number |
| Y2023Day05.SeedToSoilRuns | src/years/y2023/day05.rs:7-9 | the sample seed-to-soil map, forwards and backwards, as a piecewise shift |
| Y2023Day05.SoilToFertilizerRuns | src/years/y2023/day05.rs:11-14 | the sample soil-to-fertilizer map as a piecewise shift |
| Y2023Day05.FertilizerToWaterRuns | src/years/y2023/day05.rs:16-20 | the sample fertilizer-to-water map as a piecewise shift |
| Y2023Day05.WaterToLightRuns | src/years/y2023/day05.rs:22-24 | the sample water-to-light map as a piecewise shift |
| Y2023Day05.LightToTemperatureRuns | src/years/y2023/day05.rs:26-29 | the sample light-to-temperature map as a piecewise shift |
| Y2023Day05.TemperatureToHumidityRuns | src/years/y2023/day05.rs:31-33 | the sample temperature-to-humidity map as a piecewise shift |
| Y2023Day05.HumidityToLocationRuns | src/years/y2023/day05.rs:35-37 | the sample humidity-to-location map as a piecewise shift |
| Y2023Day05.SampleLocation | src/years/y2023/day05.rs:5-37 | a chain of sample steps gives a seed's location |
| Y2023Day05.SampleSeed | src/years/y2023/day05.rs:5-37 | a chain of backward sample steps gives a location's seed |
| Y2023Day05.SampleLocations | src/years/y2023/day05.rs:5-37 | seeds 79, 14, 55 and 13 reach locations 82, 43, 86 and 35 |
| Y2023Day05.SamplePart1 | src/years/y2023/day05.rs:249 | the sample's least location is 35 |
| Y2023Day05.SampleSeedRanges | src/years/y2023/day05.rs:66-69 | the sample seed ranges sorted by start are (55, 13) and (79, 14) |
| Y2023Day05.SampleContains | src/years/y2023/day05.rs:99-107 | a sample seed is in range exactly when it lies in 55..=68 or 79..=93 |
| Y2023Day05.SamplePart2 | src/years/y2023/day05.rs:264 | the search bound is 60 and the first location found is 46 |
| Y2023Day06.CountWins | src/years/y2023/day06.rs:83-88 | among the first n hold times, no more wins than hold times |
| Y2023Day06.WaysToWin | src/years/y2023/day06.rs:83-88 | at most one way to win per hold time below the race time |
| Y2023Day06.WaysToWinIsSetSize | src/years/y2023/day06.rs:83-88 | the count is the number of hold times in `0..time` whose distance beats the record |
| Y2023Day06.WinsBetween | src/years/y2023/day06.rs:86 | the winning hold times are the interval from the least one to its mirror `time - lo` |
| Y2023Day06.CountWinsInterval | src/years/y2023/day06.rs:84-87 | counting the first n hold times counts the part of the winning interval below n |
| Y2023Day06.WaysToWinClosedForm | src/years/y2023/day06.rs:83-88 | with `lo` the least winning hold time, the count is `time + 1 - 2*lo` |
| Y2023Day06.WaysMultiplied | src/years/y2023/day06.rs:66-74 | the product over the races: 1 for no race, 0 when some race cannot be won |
| Y2023Day06.WaysMultipliedAppend | src/years/y2023/day06.rs:66-74 | one more race multiplies the product by its number of ways |
| Y2023Day06.ParseU64 | src/years/y2023/day06.rs:19-31 | a word parses exactly when it is a `u64` numeral; otherwise the `unwrap` panic shows the `ParseIntError` kind |
| Y2023Day06.Part1 | src/years/y2023/day06.rs:105-108 | `day06_1`: a parse error, 1 for no race, and 0 when some race cannot be won |
| Y2023Day06.Part2 | src/years/y2023/day06.rs:119-122 | `day06_2`: a parse error, or the number of ways to win the single joined race |
| Y2023Day06.ZipRaces | src/years/y2023/day06.rs:35-38 | as many races as the shorter of the two lists |
| Y2023Day06.ZipRacesOk | src/years/y2023/day06.rs:14-38 | zipping succeeds exactly when every time the zip reaches parses (including the one that finds the distances exhausted) and every paired distance parses |
| Y2023Day06.ZipRacesPairs | src/years/y2023/day06.rs:35-38 | race k pairs the k-th time with the k-th distance |
| Y2023Day06.ParseRaces | src/years/y2023/day06.rs:11-12 | an input without a newline is the `unwrap` panic |
| Y2023Day06.ParseRaceLines | src/years/y2023/day06.rs:14-32 | a missing "Time:" or "Distance:" prefix is the `unwrap` panic |
| Y2023Day06.ParseOneRace | src/years/y2023/day06.rs:42-64 | `parse_2` makes exactly one race |
| Y2023Day06.RaceRoundTrip | src/years/y2023/day06.rs:11-40 | a race written as "Time: t\nDistance: d" parses back to itself |
| Y2023Day06.OneRaceRoundTrip | src/years/y2023/day06.rs:42-64 | with spaces removed, the same text parses back to the one race |
| Y2023Day06.SampleRaces | src/years/y2023/day06.rs:97-99 | the three sample races have 4, 8 and 9 ways to win |
| Y2023Day06.SingleRace | src/years/y2023/day06.rs:105-108 | part 1 on a one-race text is that race's number of ways |
| Y2023Day06.SampleSingleRaces | src/years/y2023/day06.rs:96-100 | the one-race sample texts give 4, 8 and 9 |
| Y2023Day06.SamplePart1 | src/years/y2023/day06.rs:100 | the sample races multiply to 288 |
| Y2023Day06.SamplePart2 | src/years/y2023/day06.rs:115 | the joined sample race has 71503 ways |
| Y2023Day07.TypeRank | src/years/y2023/day07.rs:227-236 | the derived order of hand types: high card lowest, five of a kind highest |
| Y2023Day07.CardChars | src/years/y2023/day07.rs:170-187 | thirteen card letters under either rules |
| Y2023Day07.NormalCard | src/years/y2023/day07.rs:126-143 | a recognised card is worth 2 to 14 |
| Y2023Day07.JokerCard | src/years/y2023/day07.rs:170-187 | a recognised card is worth at most 14, and 0 exactly for the joker 'J' |
| Y2023Day07.CardsListed | src/years/y2023/day07.rs:126-143 | a character is a card exactly when it is one of the thirteen letters; any other is "unrecognized card" |
| Y2023Day07.CardsAscend | src/years/y2023/day07.rs:122-123 | the letters in listed order have strictly increasing values |
| Y2023Day07.JokerLowest | src/years/y2023/day07.rs:163-172 | under joker rules 'J' is worth less than every other card |
| Y2023Day07.CardChar | src/years/y2023/day07.rs:170-187 | the letter of a card value parses back to that value |
| Y2023Day07.ParseHand | src/years/y2023/day07.rs:70-89 | a line without a space is "invalid hand <line>"; otherwise it is the parse of the cards and the bid; a parsed hand has five cards and a `u64` bid |
| Y2023Day07.ParseHandParts | src/years/y2023/day07.rs:75-88 | cards that are not 5 UTF-8 bytes long are "invalid hand <cards>, expected 5 cards"; then the first bad card's error; then a bid that is not a `u64` is its `ParseIntError` text; otherwise the five cards in order and the bid |
| Y2023Day07.CardsAscii | src/years/y2023/day07.rs:75-82 | cards that all parse are ASCII, so their byte length is their count |
| Y2023Day07.MultibyteFirstCard | src/years/y2023/day07.rs:75-82 | "éAAA" is 5 bytes: it passes the length check and fails on its first card |
| Y2023Day07.MultibyteLastCard | src/years/y2023/day07.rs:75-76 | "AAAAé" is five characters but 6 bytes: the length check rejects it |
| Y2023Day07.NegativeBid | src/years/y2023/day07.rs:86 | a bid of "-5" is "invalid digit found in string", since a `u64` takes no sign |
| Y2023Day07.ParseHandList | src/years/y2023/day07.rs:43-49 | one hand of five cards per line, or the first line's error |
| Y2023Day07.CardsText | src/years/y2023/day07.rs:79-82 | one letter per card, each parsing back to its card |
| Y2023Day07.HandRoundTrip | src/years/y2023/day07.rs:70-89 | a hand written as its letters, a space and its bid parses back to itself |
| Y2023Day07.HandListRoundTrip | src/years/y2023/day07.rs:43-49 | hands written one per line parse back to the same list |
| Y2023Day07.DistinctCountIsSetSize | src/years/y2023/day07.rs:146-147 | the number of counts is the number of different cards |
| Y2023Day07.MaxOccurrenceAmongIsMax | src/years/y2023/day07.rs:146-147 | the largest count is at least every card's count and is the count of some card |
| Y2023Day07.NonJokers | src/years/y2023/day07.rs:192-198 | the non-joker cards hold no joker and are no more than the hand |
| Y2023Day07.PartitionsOfFive | src/years/y2023/day07.rs:147-155 | the sorted counts of five cards are one of the seven patterns, so the panicking arm is never reached |
| Y2023Day07.SortedCountsOf | src/years/y2023/day07.rs:146-147 | the sorted counts have one entry per different card and start with the largest count |
| Y2023Day07.NormalHandType | src/years/y2023/day07.rs:145-157 | the type from the largest group and the number of different cards |
| Y2023Day07.MatchCounts | src/years/y2023/day07.rs:147-156 | the match arms agree with the type of the largest group and the number of groups |
| Y2023Day07.CountOthers | src/years/y2023/day07.rs:190-198 | the counter holds the non-joker cards and the joker count is the rest |
| Y2023Day07.JokersJoinLargest | src/years/y2023/day07.rs:200-204 | adding the jokers to the largest count still gives a partition of five, whose type is the joker type |
| Y2023Day07.JokerCounts | src/years/y2023/day07.rs:190-204 | no other card means five of a kind; otherwise the adjusted counts are a partition of five of the joker type |
| Y2023Day07.JokerHandType | src/years/y2023/day07.rs:189-224 | the type with the jokers joining the largest group |
| Y2023Day07.JokerChain | src/years/y2023/day07.rs:206-222 | the `if` chain agrees with the type of the largest group and the number of groups, without reaching its panic |
| Y2023Day07.HandTypeFor | src/years/y2023/day07.rs:90-92 | the type under the given rules |
| Y2023Day07.CompareCardsLex | src/years/y2023/day07.rs:101-107 | the card loop is the lexicographic order of the cards, and panics exactly when all five are equal |
| Y2023Day07.CompareHandsByKey | src/years/y2023/day07.rs:95-115 | `cmp` orders by type then cards, panicking exactly on hands with the same cards |
| Y2023Day07.CompareCards | src/years/y2023/day07.rs:101-107 | the first differing card decides, `Less` exactly when it is lower; `Equal` never results, and all five equal is the "Hands should never be equal" panic |
| Y2023Day07.CompareHands | src/years/y2023/day07.rs:95-115 | `cmp` never answers `Equal`: it panics with "Hands should never be equal", and only on hands with the same cards |
| Y2023Day07.EqualHandsPermuted | src/years/y2023/day07.rs:52 | sorting cannot bring two equal hands into a list that had none |
| Y2023Day07.KeysDiffer | src/years/y2023/day07.rs:52 | hands with different cards have different sort keys |
| Y2023Day07.TotalWinnings | src/years/y2023/day07.rs:50-60 | panics exactly when two hands hold the same cards; otherwise each bid times its rank in the sorted hands |
| Y2023Day07.SortedIsSortByKey | src/years/y2023/day07.rs:52 | a sorted permutation of the hands is the sort of the hands |
| Y2023Day07.SumWinnings | src/years/y2023/day07.rs:53-59 | the loop sums each bid times its rank |
| Y2023Day07.SortedHandsAscend | src/years/y2023/day07.rs:95-115 | in the sorted hands every earlier hand compares `Less` than every later one |
| Y2023Day07.Part | src/years/y2023/day07.rs:29-37 | a parse error, the panic on equal hands, or the winnings of the sorted hands |
| Y2023Day07.JokerTypeWithoutJokers | src/years/y2023/day07.rs:189-224 | without a joker the joker type is the normal type |
| Y2023Day07.NormalTypeOfFive | src/years/y2023/day07.rs:145-157 | five given cards have the type of their largest group and number of groups |
| Y2023Day07.TypeOfFirst | src/years/y2023/day07.rs:5 | "32T3K" is one pair |
| Y2023Day07.TypeOfSecond | src/years/y2023/day07.rs:6 | "T55J5" is three of a kind |
| Y2023Day07.TypeOfThird | src/years/y2023/day07.rs:7 | "KK677" is two pair |
| Y2023Day07.TypeOfFourth | src/years/y2023/day07.rs:8 | "KTJJT" is two pair |
| Y2023Day07.TypeOfFifth | src/years/y2023/day07.rs:9 | "QQQJA" is three of a kind |
| Y2023Day07.JokerTypeOfFirst | src/years/y2023/day07.rs:5 | with jokers "32T3K" is still one pair |
| Y2023Day07.JokerTypeOfSecond | src/years/y2023/day07.rs:6 | with jokers "T55J5" is four of a kind |
| Y2023Day07.JokerTypeOfThird | src/years/y2023/day07.rs:7 | with jokers "KK677" is still two pair |
| Y2023Day07.JokerTypeOfFourth | src/years/y2023/day07.rs:8 | with jokers "KTJJT" is four of a kind |
| Y2023Day07.JokerTypeOfFifth | src/years/y2023/day07.rs:9 | with jokers "QQQJA" is four of a kind |
| Y2023Day07.WinningsOfFive | src/years/y2023/day07.rs:53-59 | five hands in order win bid times rank 1 to 5 |
| Y2023Day07.SortedSample1 | src/years/y2023/day07.rs:5-9 | the sample sorts as 32T3K, KTJJT, KK677, T55J5, QQQJA |
| Y2023Day07.SamplePart1 | src/years/y2023/day07.rs:16 | the sample wins 6440 |
| Y2023Day07.SortedSample2 | src/years/y2023/day07.rs:5-9 | with jokers the sample sorts as 32T3K, KK677, T55J5, QQQJA, KTJJT |
| Y2023Day07.SamplePart2 | src/years/y2023/day07.rs:25 | with jokers the sample wins 5905 |
| Y2023Day08.ParseNodeId | src/years/y2023/day08.rs:87-94 | an id parses exactly when it is three ASCII characters; three bytes that are not three characters panic in `try_into().unwrap()` |
| Y2023Day08.NodeIdOfTwoCharacters | src/years/y2023/day08.rs:88-93 | "é1" is three bytes but two characters, and panics |
| Y2023Day08.TrimParens | src/years/y2023/day08.rs:71 | the result starts and ends with no parenthesis and is no longer than the input |
| Y2023Day08.TrimParensWrapped | src/years/y2023/day08.rs:71 | trimming "(s)" gives s when s has no parenthesis at its ends |
| Y2023Day08.ParseNode | src/years/y2023/day08.rs:67-80 | a line without " = " is "invalid node" |
| Y2023Day08.NodeRoundTrip | src/years/y2023/day08.rs:67-80 | a node written as "ID = (L, R)" parses back to itself |
| Y2023Day08.ParseTurns | src/years/y2023/day08.rs:14-21 | the turns parse exactly when every character is 'L' or 'R' (any other reaches `unreachable!`), one turn per character |
| Y2023Day08.NodeMap | src/years/y2023/day08.rs:22-25 | the map's keys are the parsed ids, each mapping to a node with that id |
| Y2023Day08.NodeMapLast | src/years/y2023/day08.rs:22-25 | a node whose id no later line repeats is the one the map keeps (collecting into a map keeps the last) |
| Y2023Day08.ParseDesertMap | src/years/y2023/day08.rs:11-13 | an input without a blank line is "invalid input" |
| Y2023Day08.ParseMapParts | src/years/y2023/day08.rs:14-26 | the map parses exactly when the turns and every node line parse |
| Y2023Day08.TurnsRoundTrip | src/years/y2023/day08.rs:14-21 | turns written as 'L' and 'R' parse back to themselves |
| Y2023Day08.MapRoundTrip | src/years/y2023/day08.rs:11-27 | turns, a blank line and nodes one per line parse back to the turns and the map of the nodes |
| Y2023Day08.Goto | src/years/y2023/day08.rs:29-35 | a step succeeds exactly when the node is in the map, and takes its left or right neighbour |
| Y2023Day08.WalkFromArrival | src/years/y2023/day08.rs:37-52 | the walk from step s arrives at step n exactly when n is the first step at which the walk from the start reaches a destination, within the fuel |
| Y2023Day08.StepsArrival | src/years/y2023/day08.rs:37-52 | `n_steps` answers n exactly when n is the first step that reaches a destination, within the limit |
| Y2023Day08.Steps | src/years/y2023/day08.rs:37-52 | no turns is the `unreachable!` panic; an answer n is between 1 and the step limit, and step n is the first to reach a destination |
| Y2023Day08.NSteps | src/years/y2023/day08.rs:37-52 | the loop of `n_steps` follows the turns cyclically to the first destination |
| Y2023Day08.WalkResult | src/years/y2023/day08.rs:44-51 | an arrival gives its step count; a missing node or the step limit is an error |
| Y2023Day08.Part1 | src/years/y2023/day08.rs:119-124 | a parse error is the map parser's own error; otherwise the steps from AAA to ZZZ |
| Y2023Day08.Lcm | src/years/y2023/day08.rs:157 | the least positive common multiple |
| Y2023Day08.LcmDivides | src/years/y2023/day08.rs:157 | the lcm divides every positive common multiple |
| Y2023Day08.LcmOfEmpty | src/years/y2023/day08.rs:157 | the fold starts at 1, the lcm of nothing |
| Y2023Day08.LcmOfStep | src/years/y2023/day08.rs:157 | folding one more count in gives the lcm of the larger set |
| Y2023Day08.ArrivedPositive | src/years/y2023/day08.rs:43-48 | an arrival takes at least one step |
| Y2023Day08.LcmOfSteps | src/years/y2023/day08.rs:151-157 | succeeds exactly when every start ending in 'A' arrives, with the least common multiple of their step counts |
| Y2023Day08.Part2 | src/years/y2023/day08.rs:146-160 | a parse error is the map parser's own error; otherwise it succeeds exactly when every node ending in 'A' arrives, with the lcm of their step counts |
| Y2023Day08.SamplePart1First | src/years/y2023/day08.rs:103-111 | the first sample takes 2 steps |
| Y2023Day08.SamplePart1Second | src/years/y2023/day08.rs:113-117 | the second sample takes 6 steps |
| Y2023Day08.SampleStarts3 | src/years/y2023/day08.rs:135-144 | the starts of the part 2 sample are 11A and 22A |
| Y2023Day08.SampleWalks3 | src/years/y2023/day08.rs:135-144 | 11A arrives in 2 steps and 22A in 3 |
| Y2023Day08.LcmOfTwoAndThree | src/years/y2023/day08.rs:157 | the lcm of 2 and 3 is 6 |
| Y2023Day08.SamplePart2 | src/years/y2023/day08.rs:168 | the part 2 sample gives 6 |
| Y2023Day09.Differences | src/years/y2023/day09.rs:42-47 | one difference fewer than the values |
| Y2023Day09.PredictNextUnfolds | src/years/y2023/day09.rs:34-51 | the early return on zeros changes nothing: every non-empty history predicts its last value plus the prediction for its differences |
| Y2023Day09.PredictNext | src/years/y2023/day09.rs:34-51 | a single reading predicts itself; the other properties of `predict_next` are the lemmas below |
| Y2023Day09.Plus | src/years/y2023/day09.rs:34-51 | the element-wise sum of two histories |
| Y2023Day09.PredictNextLinear | src/years/y2023/day09.rs:34-51 | the prediction of a sum of histories is the sum of their predictions |
| Y2023Day09.PredictNextConstant | src/years/y2023/day09.rs:34-51 | a constant history predicts that constant |
| Y2023Day09.PredictNextArithmetic | src/years/y2023/day09.rs:34-51 | an arithmetic progression predicts its last value plus the step |
| Y2023Day09.ParseValue | src/years/y2023/day09.rs:29 | a word parses exactly when it is an `i32` numeral; otherwise the `ParseIntError` text |
| Y2023Day09.ParseHistory | src/years/y2023/day09.rs:25-32 | one value per whitespace-separated word |
| Y2023Day09.ParseSensorValues | src/years/y2023/day09.rs:7-14 | one history per line |
| Y2023Day09.Predictions | src/years/y2023/day09.rs:15-18 | the prediction of each history, in order |
| Y2023Day09.Part1 | src/years/y2023/day09.rs:59-63 | succeeds exactly when every line parses |
| Y2023Day09.HistoryRoundTrip | src/years/y2023/day09.rs:25-32 | values written with single spaces parse back to themselves |
| Y2023Day09.SensorValuesRoundTrip | src/years/y2023/day09.rs:7-14 | histories written one per line parse back to themselves |
| Y2023Day09.SampleFirst | src/years/y2023/day09.rs:71 | "0 3 6 9 12 15" predicts 18 |
| Y2023Day09.SampleSecond | src/years/y2023/day09.rs:72 | "1 3 6 10 15 21" predicts 28 |
| Y2023Day09.SampleThird | src/years/y2023/day09.rs:73 | "10 13 16 21 30 45" predicts 68 |
| Y2023Day09.ValueSumsThree | src/years/y2023/day09.rs:15-18 | three histories sum their predictions |
| Y2023Day09.SamplePart1 | src/years/y2023/day09.rs:74 | the three sample histories sum to 114 |
| Y2023Day10.Offset | src/years/y2023/day10.rs:189-196 | each direction is one unit step, north up (y + 1), south down, east right, west left |
| Y2023Day10.Inverse | src/years/y2023/day10.rs:197-204 | the opposite direction, whose offset is the negated offset |
| Y2023Day10.InverseInvolution | src/years/y2023/day10.rs:197-204 | the opposite of the opposite is the direction itself |
| Y2023Day10.AllDirections | src/years/y2023/day10.rs:205-212 | the four directions each appear once |
| Y2023Day10.StepBack | src/years/y2023/day10.rs:189-204 | a step followed by the opposite step returns to the start |
| Y2023Day10.ParseTile | src/years/y2023/day10.rs:147-161 | exactly the eight characters "\|-LJ7F.S" parse, '.' as ground and 'S' as the start, each pipe joining two different directions; any other is the "unrecognized tile" panic |
| Y2023Day10.Travel | src/years/y2023/day10.rs:162-177 | a tile can be entered exactly when it is a pipe with an end on the side entered from |
| Y2023Day10.TravelJoins | src/years/y2023/day10.rs:162-177 | entering from one end leads out of exactly the other end |
| Y2023Day10.TravelBack | src/years/y2023/day10.rs:162-177 | a pipe can be travelled in both directions |
| Y2023Day10.Get | src/years/y2023/day10.rs:43-48 | the tile at a position is defined exactly when row `-y` and column `x` are inside the grid (a negative index wraps to a huge `usize` and misses) |
| Y2023Day10.LastStartIn | src/years/y2023/day10.rs:26-31 | the last 'S' of a row, if any |
| Y2023Day10.LastStartSpec | src/years/y2023/day10.rs:18-38 | the stored start is the last 'S' of the grid, and none exactly when no row has one |
| Y2023Day10.LastWidthSpec | src/years/y2023/day10.rs:27 | the width is the length of the last non-empty row, 0 when every row is empty |
| Y2023Day10.MapOfTilesSpec | src/years/y2023/day10.rs:14-42 | a parsed map holds the rows, its height is their number and its start is a start tile; no start is the `unwrap` panic |
| Y2023Day10.MapOfRows | src/years/y2023/day10.rs:18-36 | one row of tiles per line |
| Y2023Day10.ParseMap | src/years/y2023/day10.rs:14-42 | the loops of `Map::parse` build the map of the text |
| Y2023Day10.ParseLine | src/years/y2023/day10.rs:23-34 | the inner loop parses one row, updating the start and the width |
| Y2023Day10.WalkLoopStep | src/years/y2023/day10.rs:60-75 | a pipe entered from one end adds its position and moves out through its other end |
| Y2023Day10.WalkLoop | src/years/y2023/day10.rs:60-75 | `_get_loop`: a closed walk's tiles include every tile visited before and the tile it closed on |
| Y2023Day10.WalkLoopClose | src/years/y2023/day10.rs:66-70 | reaching the start adds it and closes the loop |
| Y2023Day10.WalkLoopSize | src/years/y2023/day10.rs:60-75 | a closed walk holds every tile visited before it and at most one more tile per step of fuel |
| Y2023Day10.Toward | src/years/y2023/day10.rs:189-196 | the direction whose step leads from one neighbour to the other |
| Y2023Day10.Elements | src/years/y2023/day10.rs:62-73 | the set of positions visited |
| Y2023Day10.DistinctElements | src/years/y2023/day10.rs:249 | a path without repeats has as many positions as steps |
| Y2023Day10.WalkLoopPath | src/years/y2023/day10.rs:60-75 | every walk follows a connected pipe path from its first position, within the fuel, and its set is the visited set plus that path |
| Y2023Day10.PathWalkLoop | src/years/y2023/day10.rs:60-75 | a connected pipe path that ends at the start is walked to its set |
| Y2023Day10.FindLoop | src/years/y2023/day10.rs:50-58 | the first direction, in the order north, south, east, west, whose walk closes; none closing is the `unwrap` panic |
| Y2023Day10.FindLoopSize | src/years/y2023/day10.rs:50-58 | the loop found has no more tiles than the step bound |
| Y2023Day10.FindLoopPath | src/years/y2023/day10.rs:50-58 | the loop found is the set of a connected pipe path beside the start |
| Y2023Day10.FindLoopFirst | src/years/y2023/day10.rs:50-58 | when the first direction's walk closes, that is the loop |
| Y2023Day10.Part1Path | src/years/y2023/day10.rs:247-252 | the answer is half the tiles of a connected pipe path through the start |
| Y2023Day10.Part1 | src/years/y2023/day10.rs:247-252 | `day10_1`: a map error is passed on; an answer is never more than the number of tiles |
| Y2023Day10.SampleSquare | src/years/y2023/day10.rs:215-221 | the square sample's loop has 8 tiles, so its answer is 4 |
| Y2023Day10.SquareLoopFound | src/years/y2023/day10.rs:215-221 | the square loop found holds its eight positions |
| Y2023Day10.SquarePath | src/years/y2023/day10.rs:215-221 | the eight positions form a connected pipe path beside the start |
| Y2023Day11.ParseCell | src/years/y2023/day11.rs:17-21 | exactly '.' and '#' parse, '#' as a galaxy; any other is the "Unrecognized symbol" panic |
| Y2023Day11.Cells | src/years/y2023/day11.rs:12-24 | one row of cells per line |
| Y2023Day11.RowText | src/years/y2023/day11.rs:51-64 | the text of a row as `print` writes it, one character per cell |
| Y2023Day11.CellsRoundTrip | src/years/y2023/day11.rs:12-24 | the printed text of a grid with no empty rows parses back to the grid |
| Y2023Day11.EmptyRows | src/years/y2023/day11.rs:26-31 | the indices of the rows without a galaxy, exactly those, in increasing order |
| Y2023Day11.ColumnFromBlank | src/years/y2023/day11.rs:34 | the column test is true exactly when no row from k on has a galaxy in that column |
| Y2023Day11.ColumnFromFails | src/years/y2023/day11.rs:34 | the column test panics exactly when it reaches a row too short for the column before finding a galaxy |
| Y2023Day11.EmptyColsUpTo | src/years/y2023/day11.rs:32-35 | the filter panics exactly when some column test panics |
| Y2023Day11.EmptyColsUpToSpec | src/years/y2023/day11.rs:32-35 | the empty columns are exactly the columns below the width without a galaxy, in increasing order |
| Y2023Day11.EmptyCols | src/years/y2023/day11.rs:32 | an empty grid panics at `values[0]` |
| Y2023Day11.EmptyColsRectangular | src/years/y2023/day11.rs:32-35 | on a rectangular grid the filter succeeds with exactly the blank columns, increasing |
| Y2023Day11.InsertAt | src/years/y2023/day11.rs:38-44 | `Vec::insert`: the element at its index, earlier ones unchanged, later ones shifted by one |
| Y2023Day11.InsertEach | src/years/y2023/day11.rs:36-40 | one more element per index |
| Y2023Day11.InsertEachDup | src/years/y2023/day11.rs:36-40 | inserting at each marked index plus the running offset duplicates each marked element |
| Y2023Day11.DupLength | src/years/y2023/day11.rs:36-47 | duplicating gives one extra element per mark |
| Y2023Day11.DupWeight | src/years/y2023/day11.rs:36-47 | duplicating blank elements adds no galaxy |
| Y2023Day11.EmptyRow | src/years/y2023/day11.rs:38 | a blank row of the given width |
| Y2023Day11.InsertCols | src/years/y2023/day11.rs:41-47 | the column insertion panics exactly when some row is too short; otherwise each row grows by one cell per empty column |
| Y2023Day11.RowsStage | src/years/y2023/day11.rs:36-40 | on a rectangular grid, inserting blank rows as wide as the first row duplicates each empty row |
| Y2023Day11.ColumnsStage | src/years/y2023/day11.rs:41-47 | inserting blank columns duplicates each empty column in every row |
| Y2023Day11.ExpandDuplicates | src/years/y2023/day11.rs:25-47 | expansion doubles every empty row and every empty column |
| Y2023Day11.ExpandShape | src/years/y2023/day11.rs:25-47 | the expanded grid is rectangular, grows by the empty rows and columns, and keeps every galaxy |
| Y2023Day11.ExpandWith | src/years/y2023/day11.rs:25-47 | a failing column scan is the index panic; an expanded image has one more row per empty row |
| Y2023Day11.ExpandAsWritten | src/years/y2023/day11.rs:25-47 | `parse` as written: the empty image is the index panic, on a square image it is the intended expansion, and it adds one row per empty row |
| Y2023Day11.Expand | src/years/y2023/day11.rs:25-47 | the intended expansion: the empty image is the index panic, and it adds one row per empty row |
| Y2023Day11.GalaxyMapOf | src/years/y2023/day11.rs:11-50 | `GalaxyMap::parse`: a text error is passed on; the map has one more row per empty row of the text |
| Y2023Day11.DupRowTotal | src/years/y2023/day11.rs:41-47 | doubling empty columns of a row grows it by one cell per column and keeps its galaxies |
| Y2023Day11.DupGridTotal | src/years/y2023/day11.rs:36-40 | doubling empty rows keeps the number of galaxies |
| Y2023Day11.InsertRows | src/years/y2023/day11.rs:36-40 | the row loop inserts a blank row at each empty row plus the offset |
| Y2023Day11.InsertInRows | src/years/y2023/day11.rs:43-45 | inserting into every row panics exactly when some row is too short |
| Y2023Day11.InsertColumns | src/years/y2023/day11.rs:41-47 | the nested loop inserts a blank cell at each empty column plus the offset |
| Y2023Day11.Parse | src/years/y2023/day11.rs:11-50 | `GalaxyMap::parse` builds the expanded grid, as written |
| Y2023Day11.RowGalaxiesSpec | src/years/y2023/day11.rs:75-79 | the galaxies of a row, left to right |
| Y2023Day11.GridGalaxiesMembers | src/years/y2023/day11.rs:71-82 | a position is listed exactly when it is a galaxy inside the width and height |
| Y2023Day11.GridGalaxiesOrdered | src/years/y2023/day11.rs:71-82 | positions are listed row by row, left to right |
| Y2023Day11.GridGalaxiesCount | src/years/y2023/day11.rs:71-82 | one position per galaxy |
| Y2023Day11.Galaxies | src/years/y2023/day11.rs:65-82 | panics exactly on an empty grid or a row shorter than the first |
| Y2023Day11.GalaxiesSpec | src/years/y2023/day11.rs:71-82 | the galaxies in row-major order |
| Y2023Day11.GalaxiesCount | src/years/y2023/day11.rs:71-82 | a rectangular grid lists one position per galaxy |
| Y2023Day11.RowPositions | src/years/y2023/day11.rs:75-79 | the inner loop appends the row's galaxies |
| Y2023Day11.GalaxyPositions | src/years/y2023/day11.rs:71-82 | the nested loop lists the galaxies |
| Y2023Day11.AllDistancesStep | src/years/y2023/day11.rs:83-90 | one more galaxy adds its distances to the earlier ones |
| Y2023Day11.PairsHalf | src/years/y2023/day11.rs:87 | counting ordered pairs counts each pair of `tuple_combinations` twice |
| Y2023Day11.SumDistances | src/years/y2023/day11.rs:83-90 | `sum_distances` over each pair once is half the sum over all ordered pairs |
| Y2023Day11.Part1 | src/years/y2023/day11.rs:93-97 | `day11_1`: a parse error is passed on; twice the answer is the sum of the distances over all ordered pairs of galaxies of the expanded map |
| Y2023Day11.Part1Square | src/years/y2023/day11.rs:93-97 | on a square grid the answer is the sum of the distances between the galaxies of the expanded grid, one per galaxy of the input |
| Y2023Day11.SampleDistances | src/years/y2023/day11.rs:99-116 | the galaxies of the expanded sample are 374 apart in all |
| Y2023Day11.WideEmptyRows | src/years/y2023/day11.rs:26-31 | in "....\n#..." only row 0 is empty |
| Y2023Day11.WideEmptyColumn | src/years/y2023/day11.rs:32-35 | in "....\n#..." column 3 is empty |
| Y2023Day11.AsWrittenPanicsOnWideImage | src/years/y2023/day11.rs:25-44 | as written, the blank row has the height's width, so the column insertion panics |
| Y2023Day11.ExpandWideImage | src/years/y2023/day11.rs:25-47 | with the row width taken from the rows, the wide image expands and sums to 0 |

## Left out

- Rust panics (`unwrap` on `None` or `Err`, `unreachable!`, `panic!`, an index or `insert` out of bounds, an overflowing `u16` shift) are not aborts here: each becomes an `Err` whose message starts with `panic:`, and the harness treats it like any other error.
- The panic on an empty line is not modelled. It happens in every build: `chars.len() - 1` in `src/years/y2015/day05.rs:97` underflows in a debug build and wraps in a release build, where `chars[0]` is then out of bounds; `s.len() - 1` in `src/years/y2015/day08.rs:50` does the same, and `s.chars().nth(1).unwrap()` panics. The model's loops simply do not run on an empty line (false and 0).
- Machine-integer widths are unbounded wherever an overflow would need a very large input: the `i32` floor and brightness counters (2015 days 1 and 6), the `i32` differences and sum of 2023 day 9, the `i32` distance sum of 2023 day 11, the `u64` product `hold * (time - hold)` of 2023 day 6, the `i64` arithmetic of 2023 day 5's `run` and `run_backwards`, the `usize` lcm fold of 2023 day 8 and every `u128` sum and product. The parsers do keep each type's range, the 2015 day 7 signals are 16-bit, and the final `as u128` casts wrap a negative value as Rust does.
- `str::lines` drops a `'\r'` before each `'\n'`; `Text.Lines` splits on `'\n'` only, so input with Windows line endings is not modelled.
- `split_whitespace` and `trim` use Unicode white space; `Text.IsAsciiWhitespace`, `Text.Words` and `Text.Trim` know only the ASCII white-space characters.
- The `\d` of the 2023 day 1 regular expression matches every Unicode decimal digit; `Text.IsDigit` accepts only '0' to '9'.
- `str::len` counts UTF-8 bytes. The model counts characters in `src/years/y2023/day03.rs:100` and `src/years/y2015/day08.rs` (the same on ASCII input). 2023 day 7's five-card check and 2023 day 8's node ids keep the byte count (`Text.Utf8Len`), because there it changes which inputs are rejected.
- Parallelism is made sequential: the rayon loops of `src/main.rs:50-51` and `src/main.rs:64-74`, the `par_iter` product of 2023 day 6, the sum of 2023 day 9, and the `find_first` of `src/years/y2023/day05.rs:130-136`. The unit-test map, the day 6 product and the day 9 sum give the same result in either order. The other two do not always, as the next two lines say.
- Y2023Day05.FirstLocation: rayon's `find_first` may also evaluate locations after the first match, and a panic in any of them (the overflow check of `has_seed`, `src/years/y2023/day05.rs:102-105`) is passed on. With seed ranges (0, 10) and (i64::MAX, 5), a location whose seed is 5 matches, yet a later location whose seed is 100 reaches the overflowing range, so the source may panic. The model tests the locations in order and returns the first match, or the panic of a location it reaches before that match.
- MainProgram.RunInputs: when several input files cannot be read, rayon does not fix which error the `collect` into a `Result` returns. The model always reports the first failed read in the order of the selected challenges.
- Y2023Day10.FindLoop: the source's walk has no bound. The model's has the bound `StepBound` (twice the tiles plus one). That every walk the source completes fits in it is not proved, so `Part1` may answer `STEP_BOUND` where the source would not.
- Y2023Day10.Part1: the same unproved step bound lets it answer the `STEP_BOUND` error, which the source never gives, as the Y2023Day10.FindLoop line says.
- Y2023Day08.Steps: the walk is bounded by the `usize` step counter (`STEP_LIMIT`). A walk that never arrives is `OutOfSteps` rather than a loop that never ends.
- Y2015Day07.Part1: the source recurses without limit. The model asks for a rank on the wires that "a" depends on, so that each one is evaluated after its inputs. A wiring where those wires form a cycle is therefore not modelled at all. On such a wiring the source overflows its stack when the evaluation reaches the cycle, but it may first stop with an ordinary error: "x AND b -> a" with "b -> b" fails with wire x not found. Y2015Day07.Day07 and the lemmas built on `AcyclicBy` exclude these inputs too.
- Y2015Day07.RunCircuit, Y2015Day07.CircuitState.Get, Y2015Day07.CircuitState.RunGate, Y2015Day07.CircuitState.RunBinary and Y2015Day07.CircuitState.GetValue: the same ghost rank restricts each of them to wirings without a cycle among the wires evaluated, for the reason on the Y2015Day07.Part1 line.
- 2015 day 4 (MD5 hashing) is not part of this model.
- I/O is a parameter or left out: reading input files (the text is passed in), `clap` argument parsing (the parsed arguments are a value), coloured printing and `println!` output, timing with `Instant`, and the `inventory` registration (the registry is a sequence given to `Run`).
- The dead code `n_enclosed` and `contiguous` of `src/years/y2023/day10.rs:77-136` is not modelled.
- Y2023Day10.SampleSquare: only the first day 10 sample (`TEST1`) is evaluated, on its map value. `TEST2` to `TEST4` are not.
- Y2023Day11.SampleDistances: the day 11 sample is evaluated on its list of expanded galaxy positions, not on its text.
- The sample fixtures of 2023 days 2, 3, 4, 5, 7 and 8 are stated on the parsed values. The parsers are covered by the general round-trip lemmas instead of the literal sample text.
- 2015 day 6: the part 2 fixture "turn on 0,0 through 0,0" is not stated.
- 2015 day 3: the fixture "^v^v^v^v^v" is stated as its first four moves. The part 2 fixtures "^>v<" and the ten-move one are not stated.
- 2015 day 7: the nine-line sample text is not evaluated. The two lines that wire "a" depends on are, as a circuit, and so are single gates and the shift example.
- 2023 day 1: the 142 sum and most part 2 sample lines are not evaluated; individual lines are.
- Y2023Day08.ParseNodeId: the `unwrap` panic on a node id of three bytes that is not three characters ends, in the source, with the Debug text of the rejected `Vec<char>`. The model's message stops before that text.

## Findings

| source | as written | input that shows it | evidently intended | confidence | as-written member | corrected member |
|---|---|---|---|---|---|---|
| src/years/y2015/day07.rs:105-106 | `LSHIFT` computes `a >> b` and `RSHIFT` computes `a << b` | "123 -> x" and "x LSHIFT 2 -> a": wire a is 30 | `LSHIFT` shifts left and `RSHIFT` right, so wire a is 492 | not executed | Y2015Day07.CombineAsWritten, Y2015Day07.AsWrittenSwapsShifts, Y2015Day07.ShiftFixture | Y2015Day07.Combine, Y2015Day07.ShiftRoundTrip, Y2015Day07.Day07Intended |
| src/years/y2015/day05.rs:96-106 | the pair scan counts a pair that overlaps itself, and after a pair of equal letters at i, i + 1 it skips the pair at i + 1 whenever the letter at i + 3 is the same letter | "aaa" is accepted; "aabab" is rejected although "ab" occurs twice apart | a pair of letters that appears twice without overlapping | not executed | Y2015Day05.IsNice02AsWritten, Y2015Day05.AsWrittenAcceptsOverlap, Y2015Day05.AsWrittenMissesSkippedPair | Y2015Day05.IsNice02, Y2015Day05.ScanPairs, Y2015Day05.Part2Intended |
| src/years/y2023/day11.rs:25-38 | the blank row inserted for an empty row is `size` wide, and `size` is the number of rows | "....\n#...": the blank row is 2 wide, and the insertion for column 3, at index 5, panics on it | a blank row as wide as the image | not executed | Y2023Day11.ExpandAsWritten, Y2023Day11.AsWrittenPanicsOnWideImage | Y2023Day11.Expand, Y2023Day11.ExpandDuplicates, Y2023Day11.ExpandWideImage |
