# Advent of Code 2022, days 1 to 15, in Dafny

A model of the puzzle solvers of the Rust repository `advent-of-code-2022`, with proofs of
what each solver computes. Every day file `src/dayN.rs` becomes a module `DayNN`. The two
versions of day 4 are both modelled: `Day04` models `src/day04.rs` and `Day4Cursor` models
`src/day4.rs`. Two shared modules support them:

- `Basics` holds `Option` and `Result`.
- `Text` holds the Rust `str` operations the solvers use: `split`, `lines`, `split` on a text
  pattern, unsigned and signed `parse`, and decimal rendering for round trips.

Each solver takes the form of its source:

- Pure matches and folds are functions, with lemmas about them.
- Code that updates state step by step is a method with loop invariants. It is proved
  against a specification function, and the lemmas about that function state what the
  puzzle asks for.
- Objects whose methods update their fields are classes: day 9's `SeenMap`, day 10's
  `Computer` and day 14's `CaveSlice`.
- In-place algorithms keep their arrays: day 5's stacks, day 8's visibility map, day 9's
  knots, day 11's monkeys and day 12's neighbour buffer.

The solvers panic on malformed input (`unwrap`, out-of-range indexing, `usize` subtraction
below zero, `panic!`). In the model a panic is `None` or `Err`, or `false` for a method that
returns a success flag. The contracts say exactly which inputs lead there.

Day 12 is the hill-climbing search. It is a uniform-cost search over a height map with two
strategies: ascent from `S` to `E`, and descent from `E` to any cell of height 0. The model
proves that its answer is the length of a shortest legal walk to a goal. It also proves that
the search runs out only when no such walk exists.

## Model

| member | source | states |
|---|---|---|
| Day01.Totals | src/day1.rs:3-17 | the totals exist exactly when every non-empty line parses, and there is one group more than there are empty lines |
| Day01.SumUpdateLast | src/day1.rs:12-13 | adding a value to the last group adds it to the sum of the groups |
| Day01.TotalsConserve | src/day1.rs:3-17 | grouping neither loses nor invents calories: the group totals add up to the values of all non-empty lines |
| Day01.TotalsSnoc | src/day1.rs:6-14 | reading one more line starts a new group of 0 for an empty line and otherwise adds its value to the last group, or fails when it does not parse |
| Day01.BadLine | src/day1.rs:13 | a non-empty line that does not parse makes the whole input fail |
| Day01.FindWeightTotals | src/day1.rs:3-17 | the loop returns `Ok` exactly when the grouping function succeeds on the input split at `'\n'`, and then its totals |
| Day01.FindLargest | src/day1.rs:19-23 | the result is at least every item, and is one of them or 0 |
| Day01.InsertStep | src/day1.rs:26-36 | one fold step keeps the three leaders in descending order, never lowers the third, drops a value no larger than the new third, and loses no value |
| Day01.LargestThree | src/day1.rs:25-37 | the three leaders are in descending order and no value the fold dropped exceeds the third, so they are the three largest |
| Day01.LargestThreeKeepsAll | src/day1.rs:25-37 | the leaders together with the dropped values are exactly the items plus the three starting zeros |
| Day01.FirstIsLargest | src/day1.rs:19-37 | the first leader is the answer of `find_largest` |
| Day01.Part1 | src/day1.rs:40-43 | `Ok` exactly when the totals parse, and then the largest total |
| Day01.Part2 | src/day1.rs:49-53 | `Ok` exactly when the totals parse, and then the sum of the three leaders |
| Day01.Example | src/day1.rs:19-37 | on the puzzle's example totals the largest is 24000 and the leaders are 24000, 11000 and 10000 |
| Day02.Rps.Score | src/day2.rs:11-17 | a shape is worth 1 (Rock), 2 (Paper) or 3 (Scissors) points, so the score lies in 1..3 |
| Day02.OpponentsOf | src/day2.rs:19-25 | the triple is (the shape that beats `s`, `s` itself, the shape `s` beats) under the game's rules, stated independently as `Beats` |
| Day02.FromChar | src/day2.rs:27-34 | exactly the letters A/X, B/Y, C/Z decode, to Rock, Paper and Scissors respectively; any other letter is the panic |
| Day02.ParseLine1 | src/day2.rs:37-44 | a line parses exactly when it has at least three characters and its first and third decode; the round is those two shapes |
| Day02.ParseLine2 | src/day2.rs:46-59 | a line parses exactly when its first letter decodes and its third is X, Y or Z; the left shape is the first letter's |
| Day02.ParseLine2Outcome | src/day2.rs:46-59 | the shape chosen for X loses, for Y draws and for Z wins against the opponent |
| Day02.ScoreMatch | src/day2.rs:61-71 | the score is our shape's points plus 0, 3 or 6 for a loss, draw or win judged by the rules, hence between 1 and 9 |
| Day02.TotalScore | src/day2.rs:74-95 | a total exists exactly when every non-empty line parses (empty lines are filtered out), and it is at most 9 per line |
| Day02.Example1 | src/day2.rs:74-84 | the worked example's rounds score 8, 1 and 6 under the first reading |
| Day02.Example2 | src/day2.rs:85-95 | the worked example's rounds score 4, 1 and 7 under the second reading |
| Day03.Priority | src/day3.rs:33-39 | exactly the ASCII letters have a priority; it lies in 1..52, lower-case letters take 1..26, and it identifies the letter (`Letter` inverts it) |
| Day03.SplitAtCenter | src/day3.rs:5-10 | two halves that concatenate back to the line; the first has length `len / 2`, the second is longer by `len % 2` |
| Day03.Counter | src/day3.rs:12-22 | the per-slot counter after `k` strings never exceeds `k` |
| Day03.CounterMeaning | src/day3.rs:12-22 | the counter for a slot reaches `k` exactly when every one of the first `k` strings holds an item of that priority |
| Day03.CountString | src/day3.rs:15-22 | scanning one string bumps the counters from their value after `idx` strings to their value after `idx + 1`; it fails exactly when the string holds a non-letter |
| Day03.FirstCommonMeaning | src/day3.rs:24-30 | the slot found is common to all strings and no earlier slot is; no result means no slot is common |
| Day03.FindCommonElementIs | src/day3.rs:12-31 | the answer is characterised without the scan: the least priority common to all strings, or the panic when there is a non-letter or no common item |
| Day03.FindCommonElement | src/day3.rs:12-31 | the counting array method returns exactly that characterised answer |
| Day03.CommonIsPriority | src/day3.rs:24-28 | for a non-empty group the common slot is a real priority in 1..52 (slot 0 is never counted) |
| Day03.TotalSnoc | src/day3.rs:47-49 | the sum over one more group adds that group's common priority, and a panic anywhere stays a panic |
| Day03.SumCommon | src/day3.rs:47-49 | the summing loop returns the sum of the groups' common priorities, or the panic |
| Day03.TotalNone | src/day3.rs:47-49 | a panic in a prefix of the groups makes the whole sum a panic |
| Day03.Chunks | src/day3.rs:57 | `chunks(3)`: every chunk is non-empty with at most `n` lines, and all chunks but the last have exactly `n` |
| Day03.ChunksPartition | src/day3.rs:57 | the chunks concatenate back to the lines in order |
| Day03.Rucksacks | src/day3.rs:45-47 | one group per line, made of the line's two compartments |
| Day03.Part1 | src/day3.rs:42-51 | the answer is the sum of the common priority of each line's two halves |
| Day03.Part2 | src/day3.rs:52-63 | the answer is the sum of the common priority of each block of three lines |
| Day04.ParseTasks | src/day04.rs:9-22 | a parse needs at least two comma-separated pieces; each `unwrap` failure (missing piece, non-number) is `None` |
| Day04.ParseRender | src/day04.rs:9-22 | round trip: parsing the rendered line `a-b,c-d` gives back both ranges |
| Day04.IsContainedMeaning | src/day04.rs:24-27 | on well-formed ranges `is_contained` holds exactly when every section of one range lies in the other; it is symmetric and reflexive |
| Day04.HasOverlapMeaning | src/day04.rs:29-32 | on well-formed ranges `has_overlap` holds exactly when some section lies in both, i.e. `s1 <= e2 && s2 <= e1`; it is symmetric and implied by containment |
| Day04.CountPairs | src/day04.rs:34-60 | a count exists exactly when every line parses, and it is at most the number of lines |
| Day04.ContainedPairsOverlap | src/day04.rs:34-60 | on well-formed input the part 1 answer never exceeds the part 2 answer |
| Day4Cursor.ReadAt | src/day4.rs:12-16 | reading one number (`take_while` over digits, then `parse`) never moves the cursor backwards or past the end |
| Day4Cursor.ReadNumber | src/day4.rs:12-16 | the character loop returns exactly the value and cursor of `ReadAt` |
| Day4Cursor.ParseTasks | src/day4.rs:9-46 | the four-reads method returns exactly `CursorParse`, the function of the line |
| Day4Cursor.ReadShift | src/day4.rs:12-16 | a read depends only on the text from the cursor on: a prefix shifts the cursor and keeps the value |
| Day4Cursor.ParseRendered | src/day4.rs:9-46 | round trip: any non-digit separators between the four numbers parse back to both ranges |
| Day4Cursor.BothParsersAgree | src/day4.rs:9-46 | on a line `a-b,c-d` the cursor parser and the split parser of `src/day04.rs` agree and both return the ranges |
| Day4Cursor.ParseOfReads | src/day4.rs:9-46 | four successful reads in sequence determine the parsed pair |
| Day4Cursor.OverlapMissed | src/day4.rs:53-56 | for 1-5 and 2-6, which share sections 2 to 5, `has_overlap` as written says no overlap while the corrected test says overlap |
| Day4Cursor.HasOverlapVersusCorrected | src/day4.rs:53-56 | on well-formed ranges the test as written never invents an overlap, and it differs from the corrected one exactly when `s1 < s2 <= e1 < e2` |
| Day4Cursor.CountPairs | src/day4.rs:58-83 | a count exists exactly when every non-empty line of `split('\n')` parses, and it is at most the number of lines |
| Day05.ReverseMeaning | src/day5.rs:23-25 | `reverse` puts the element at `i` at position `len - 1 - i` |
| Day05.ReverseReverse | src/day5.rs:23-25 | reversing twice gives the stack back |
| Day05.MoveCratesSlowly | src/day5.rs:53-57 | the inner loop of one command succeeds exactly when `MoveSlowly` does and leaves the stacks it computes |
| Day05.MoveSlowlyStops | src/day5.rs:53-57 | a panic at one single move is a panic of the whole command |
| Day05.ApplyActionsSlowly | src/day5.rs:51-59 | the array method succeeds exactly when the command-by-command function does, and leaves its stacks |
| Day05.SlowlyStops | src/day5.rs:51-59 | a panic on a prefix of the commands is a panic of the whole run |
| Day05.ApplyActionsQuickly | src/day5.rs:61-67 | the array method succeeds exactly when `ApplyQuicklySpec` does (a missing stack or too few crates is the panic) and leaves its stacks |
| Day05.QuicklyStops | src/day5.rs:61-67 | a panic on a prefix of the commands is a panic of the whole run |
| Day05.MoveSlowlyMeaning | src/day5.rs:53-57 | between two different stacks, `k` single moves take the top `min(k, len)` crates off the source and put them on the target in reverse order |
| Day05.QuicklyVersusSlowly | src/day5.rs:51-67 | when the source holds enough crates the two cranes move the same block; part 2 keeps its order, part 1 reverses it, and nothing else differs |
| Day05.MoveOneConserves | src/day5.rs:54-56 | a single move changes only the source and target stacks and keeps the number of stacks and of crates |
| Day05.MoveSlowlyConserves | src/day5.rs:53-57 | a command of part 1 changes only its two stacks and keeps every crate |
| Day05.MoveQuicklyConserves | src/day5.rs:63-65 | a command of part 2 changes only its two stacks and keeps every crate |
| Day05.ApplyConserves | src/day5.rs:51-67 | both cranes keep the number of stacks and of crates through any list of commands |
| Day05.Tops | src/day5.rs:77 | the answer exists exactly when no stack is empty, and its `i`-th letter is the top crate of stack `i` |
| Day05.Resize | src/day5.rs:11-13 | `resize_with`: exactly `n` stacks, the existing ones kept and new ones empty |
| Day05.PushCharMeaning | src/day5.rs:15-20 | non-letters change nothing; a capital letter at column `idx` is pushed on stack `(idx + 3) / 4 - 1`, and is a panic when that stack does not exist |
| Day05.Diagram | src/day5.rs:6 | `take_while` passes exactly the lines before the first one starting with ` 1` |
| Day05.AddLineTo | src/day5.rs:10-21 | the per-character loop over one drawing line computes `AddLine` |
| Day05.ParseStructure | src/day5.rs:5-28 | the stacks are the drawing up to the ` 1` line, read as `Structure`, and the commands start after that line |
| Day05.RowWidth | src/day5.rs:11-12 | a drawn line of `n` cells is `4n - 1` wide, which sizes the stacks to `n` |
| Day05.StructureRoundTrip | src/day5.rs:5-28 | round trip: drawing stacks of capital letters (at least as tall as the tallest stack) and reading the drawing gives the stacks back |
| Day05.DiagramOfDrawing | src/day5.rs:6 | a drawing followed by the number line is consumed exactly, number line included |
| Day05.CommandRoundTrip | src/day5.rs:30-49 | round trip: `move n from a to b` with `n < 100` and one-digit stacks parses back to the command |
| Day05.ParseCommands | src/day5.rs:30-49 | every line parses, in order, or the whole parse is the panic |
| Day05.NonEmpty | src/day5.rs:71 | the filtered lines are non-empty and no more than the input lines |
| Day05.Solve | src/day5.rs:69-87 | parse, apply and read off the tops, returning exactly `Answer` |
| Day05.Part1 | src/day5.rs:70-78 | the answer with the crane that moves one crate at a time |
| Day05.Part2 | src/day5.rs:79-87 | the answer with the crane that moves the block at once |
| Day06.Priority | src/day6.rs:16-21 | exactly the lower-case letters have a slot, `a` to 0 through `z` to 25, and the slot identifies the letter |
| Day06.UniqueChars | src/day6.rs:3-14 | the flag-array loop returns exactly `Unique`, the function of the text |
| Day06.ScanMeaning | src/day6.rs:5-11 | from a repeat-free prefix the scan's verdict is "no repeat" exactly when the text has none; a non-letter is the panic |
| Day06.UniqueMeaning | src/day6.rs:3-14 | on letters `unique_chars` holds exactly when no letter repeats; a `false` always means a repeat; the empty text is unique |
| Day06.FindMarker | src/day6.rs:24-32 | the window loop returns exactly `Marker` from index 0; a window past the end or a non-letter is the panic |
| Day06.MarkerFound | src/day6.rs:25-29 | an answer `m` ends the first window of `n` distinct characters, which are all letters; every earlier window repeats a letter, whatever non-letters follow the repeat |
| Day06.MarkerMissing | src/day6.rs:25-31 | "No solution found" or a panic means no distinct window is preceded by letters alone |
| Day06.NonLetterStops | src/day6.rs:16-20 | a non-letter that no earlier distinct window precedes is the "character out of range" panic |
| Day06.FindsFirstWindow | src/day6.rs:24-45 | for any input, a file's trailing newline included: the answer ends the first distinct window and follows only repeating windows; no answer means no distinct window preceded by letters alone; a non-letter before any distinct window panics; on letters alone no answer exactly when no window is distinct |
| Day06.NewlineAfterMarker | src/day6.rs:25-29 | `"abcd\n"` gives 4, and `"abc\n"` reaches the newline and panics |
| Day06.Part1 | src/day6.rs:24-32 | the marker for windows of 4 |
| Day06.Part2 | src/day6.rs:37-45 | the marker for windows of 14 |
| Day07.BeforeSpace | src/day7.rs:19 | `split_once(' ')`: no result exactly when there is no space; otherwise the text before the first space, which holds no space |
| Day07.ParseCommandLines | src/day7.rs:11-22 | `$ ls` and `dir …` are skipped, `$ cd ..` leaves a directory and any other `$ cd name` enters one |
| Day07.ParseFileLine | src/day7.rs:19-20 | round trip: a file line, its size then a space and its name, reads as that size |
| Day07.AddAll | src/day7.rs:34-38 | every open total grows by the file's size and nothing else changes |
| Day07.AddToPath | src/day7.rs:35-37 | the loop over the open totals adds the size to each |
| Day07.CollectDirectorySizes | src/day7.rs:25-45 | the line loop returns exactly `Sizes`: the open totals root first, then the closed totals, or the panic of `cd ..` with nothing open |
| Day07.RunStops | src/day7.rs:29-40 | a panic on a prefix of the lines is a panic of the whole walk |
| Day07.SizesCount | src/day7.rs:25-45 | there is exactly one total for every `cd` into a directory |
| Day07.RunOrdered | src/day7.rs:29-40 | open totals never grow inward, and while the outermost directory is still open nothing found exceeds it |
| Day07.RootIsLargest | src/day7.rs:42-44 | while the first directory is never closed, the first total is the largest (the source's comment says it is the root) |
| Day07.SizesMeaning | src/day7.rs:25-45 | each total is the sum of the file sizes listed between its `cd` and either its `cd ..` or the end of the session |
| Day07.ExplainsStep | src/day7.rs:29-40 | one more line keeps every total explained by the file lines in its span |
| Day07.FileSumPrefix | src/day7.rs:34-38 | file sums over lines two sessions share agree |
| Day07.SumSmall | src/day7.rs:48-56 | the sum of the totals of at most 100000 is at most 100000 per total |
| Day07.SmallestAbove | src/day7.rs:69-72 | the fold gives the smallest total above the amount to free, or 70000000 when there is none; it is never above 70000000 |
| Day07.Part1 | src/day7.rs:48-56 | the answer is `SumSmall` of the collected totals, or the panic |
| Day07.Part2 | src/day7.rs:61-75 | the answer is `SmallestAbove` for the amount the root total leaves to free; a missing total or an underflowing `usize` subtraction is the panic |
| Day08.ParseRow | src/day08.rs:54 | a row parses exactly when no byte is below `'0'` (the `u8` subtraction would underflow), and each height is its byte minus `'0'` |
| Day08.RowRoundTrip | src/day08.rs:54 | round trip: a row of digit heights rendered as text parses back to itself |
| Day08.ParseGrid | src/day08.rs:52-55 | one row per line, each the line's parse; a failure points at a line that does not parse |
| Day08.Seen | src/day08.rs:7-14 | the number of trees seen along a sightline is at most its length |
| Day08.SeenBlocked | src/day08.rs:7-14 | the count stops at, and includes, the first tree at least as tall |
| Day08.SeenClear | src/day08.rs:7-14 | with no tree as tall, every tree of the sightline is seen |
| Day08.Up | src/day08.rs:8 | the trees above, nearest first |
| Day08.Down | src/day08.rs:18 | the trees below, nearest first |
| Day08.Left | src/day08.rs:28 | the trees to the left, nearest first |
| Day08.Right | src/day08.rs:38 | the trees to the right, nearest first |
| Day08.EdgeScoresZero | src/day08.rs:3-48 | a tree on the edge scores 0 |
| Day08.ScoreBound | src/day08.rs:3-48 | a score is at most the product of the distances to the four edges |
| Day08.Sightline | src/day08.rs:7-14 | the counting loop returns `Seen` |
| Day08.ScenicScore | src/day08.rs:3-48 | the four loops return the product of the four `Seen` counts |
| Day08.MarkedIsVisible | src/day08.rs:61-113 | stopping each scan at a 9 loses nothing: on digit heights the four scans mark exactly the trees that are taller than every tree between them and some edge |
| Day08.VisibilityMap | src/day08.rs:59 | one flag per interior tree |
| Day08.ScanFromLeft | src/day08.rs:62-73 | the scan of row `x` from the left marks exactly the trees `FromLeft` names and changes no other flag |
| Day08.ScanFromRight | src/day08.rs:75-85 | the scan of row `x` from the right marks exactly the trees `FromRight` names and changes no other flag |
| Day08.ScanFromTop | src/day08.rs:89-100 | the scan of column `y` from the top marks exactly the trees `FromTop` names and changes no other flag |
| Day08.ScanFromBottom | src/day08.rs:102-112 | the scan of column `y` from the bottom marks exactly the trees `FromBottom` names and changes no other flag |
| Day08.Visibility | src/day08.rs:59-113 | all the scans together leave exactly the visibility map |
| Day08.CountTrueBound | src/day08.rs:115 | an `n`-wide map holds at most `rows * n` set flags |
| Day08.VisibleCountBound | src/day08.rs:115 | the answer counts every edge tree and no tree twice: between `4n - 4` and `n * n` |
| Day08.Part1 | src/day08.rs:51-118 | the answer is `VisibleCount`, which reads only the first `length` columns; fewer than two rows or a bad byte is the panic; a row shorter than the row count gives `None` (see Left out) |
| Day08.ScoreMapIsScores | src/day08.rs:129-135 | each entry of the score map is that tree's scenic score (edge entries stay 0, which is their score) |
| Day08.RowMaxMeaning | src/day08.rs:137-140 | the fold's result bounds every score of a row and is one of them, or 0 |
| Day08.LargestMeaning | src/day08.rs:137-140 | the fold's result bounds every score in the map and is one of them, or 0 |
| Day08.LargestScore | src/day08.rs:129-140 | the best score bounds every tree's score and some tree attains it |
| Day08.BestScoreMeaning | src/day08.rs:123-143 | the answer is the highest scenic score of any tree, and some tree has it |
| Day08.ScoreRow | src/day08.rs:132-134 | the inner loop fills row `x` of the score map |
| Day08.Part2 | src/day08.rs:123-143 | the answer is `BestScore`, which reads only the first `len()` columns; an empty grid or a bad byte is the panic; a row shorter than the row count gives `None` (see Left out) |
| Day08.WideRows | src/day08.rs:51-143 | rows longer than the row count run normally: `["000", "000"]` gives 4 in part 1 and `["00"]` gives 0 in part 2 |
| Day09.ParseCommand | src/day09.rs:10-19 | a line parses exactly when it starts with U, D, L or R and everything from its third character on is an `isize`; the command carries that count and that letter |
| Day09.Render | src/day09.rs:10-19 | the puzzle's line for a command: its letter, a space, then its count |
| Day09.ParseCommandRoundTrip | src/day09.rs:10-19 | round trip: every command, negative counts included, parses back from its line |
| Day09.ParseCommands | src/day09.rs:224 | one command per line in order, or the panic of the first bad line |
| Day09.Clamp | src/day09.rs:44-45 | `clamp(-1, 1)` lies in -1..1 and is either the value or its sign |
| Day09.Follow | src/day09.rs:21-47 | the two-stage update computes `FollowOf`, its closed form |
| Day09.FollowIsPullWhenClose | src/day09.rs:21-47 | within two cells `follow` is the puzzle's rule (one step towards the knot ahead, diagonal when needed); afterwards the knot touches both its predecessor and its old cell, and a touching knot stays put |
| Day09.FollowBetween | src/day09.rs:21-47 | each coordinate lands between the knot's old one and its predecessor's: it never moves away or past |
| Day09.FollowsVertical | src/day09.rs:61-70 | the unit test of vertical movement holds |
| Day09.FollowsHorizontal | src/day09.rs:72-81 | the unit test of horizontal movement holds |
| Day09.FollowsDiagonal | src/day09.rs:83-101 | the unit test of diagonal movement holds |
| Day09.StaysWhenClose | src/day09.rs:103-120 | the unit tests of knots that are equal or touching hold |
| Day09.GapTriangle | src/day09.rs:40-46 | the Chebyshev distance is symmetric and obeys the triangle inequality |
| Day09.Chained | src/day09.rs:49-55 | the chain keeps its length and its head |
| Day09.FollowChain | src/day09.rs:49-55 | the in-place loop leaves `Chained` of the old knots: each knot follows the already-moved one before it |
| Day09.ChainedKeepsTaut | src/day09.rs:49-55 | when every knot touches the one before it and the head moves to a touching cell, the chained rope is again taut, and each knot moves to a cell touching its old one |
| Day09.TautPrefix | src/day09.rs:49-55 | a prefix of a taut rope is taut |
| Day09.ChainedStaysInBox | src/day09.rs:49-55 | following never takes a knot out of a box that holds all the knots |
| Day09.StepsOfSnoc | src/day09.rs:131-135 | step `k + 1` moves the rope left by the first `k` |
| Day09.RunKeepsTaut | src/day09.rs:123-160 | the rope stays taut through any sequence of commands |
| Day09.StepsKeepTaut | src/day09.rs:131-135 | the rope stays taut through any number of steps of one command |
| Day09.Widen | src/day09.rs:197-208 | the widened box holds the new position and everything the old box held |
| Day09.BoxSnoc | src/day09.rs:189-209 | one more command moves the head by its full count and widens the tracked extremes to the new position |
| Day09.BoxHoldsHeads | src/day09.rs:182-209 | the tracked extremes hold the head's position after every prefix of the commands |
| Day09.SeenMap.constructor | src/day09.rs:211-218 | an empty map, sized `max - min + 2` per axis and offset by `1 - min`, whose indexable cells run from one below each minimum up to each maximum |
| Day09.SeenMap.MarkSeen | src/day09.rs:169-175 | the flag at `p` is set and the visited set grows by `p` exactly when `p` indexes the grid; otherwise nothing changes (the source panics) |
| Day09.SeenMap.CountSeen | src/day09.rs:177-179 | the count is the number of distinct positions marked |
| Day09.BuildSeenMap | src/day09.rs:182-219 | the new map is empty and holds every cell of the box of head positions |
| Day09.CoversUnion | src/day09.rs:162-175 | marking one set and then another covers their union |
| Day09.MoveRopeInPlace | src/day09.rs:130-157 | one step in place: the head moves one cell (`Left` increases x, as written) and the chain follows |
| Day09.StepRope | src/day09.rs:131-135 | one step leaves the next rope and extends the marked trail by the last knot's new cell, or stops when that cell is off the map |
| Day09.RunCommand | src/day09.rs:129-157 | one command's steps leave `StepsOf` and mark its trail; a failure names the step whose cell is off the map |
| Day09.AlongSegment | src/day09.rs:131-135 | a head partway along a command lies in any box holding both ends |
| Day09.StepsInBox | src/day09.rs:131-135 | while the head walks a command, every knot stays in a box holding the knots and the command's end |
| Day09.RunSnoc | src/day09.rs:128-159 | running one more command continues from where the run stopped |
| Day09.TrailUnfold | src/day09.rs:128-159 | the trail of a run one command longer adds that command's trail |
| Day09.TrailSnoc | src/day09.rs:128-159 | marks covering the trail so far and then one command's trail cover the longer run's trail |
| Day09.CommandInBox | src/day09.rs:128-159 | with non-negative counts every knot stays inside the box of head positions, and the head ends each command where `build_seen_map` tracked it |
| Day09.SimulateCommand | src/day09.rs:128-159 | one outer iteration extends the run and its trail by a command, and cannot fail on a safe run |
| Day09.Simulate | src/day09.rs:123-160 | the knots end as `Run` of the commands and the marks are exactly the old marks plus the last knot's trail; on a safe run nothing indexes outside the map |
| Day09.CountTailCells | src/day09.rs:221-243 | a bad line is the panic; any answer is `TailCells`, the number of distinct cells the last knot visits; with non-negative counts there is always an answer |
| Day10.TraceCycles | src/day10.rs:18-34 | over any program the callbacks see cycles 1, 2, 3, … with no gap; the cycle counter ends at the number of callbacks, the instruction counter at the number of instructions, and the register at 1 plus the `addx` changes |
| Day10.ObservedRegister | src/day10.rs:26-32 | every callback of an instruction sees the register as the earlier instructions left it: an `addx` takes effect only after both its cycles |
| Day10.SmallProgram | src/day10.rs:18-34 | the puzzle's `noop`, `addx 3`, `addx -5` shows 1, 1, 1, 4, 4 at cycles 1 to 5 and ends with register -1 |
| Day10.Computer.constructor | src/day10.rs:10-16 | the computer starts with register 1 and both counters at 0 |
| Day10.Computer.ApplyInstruction | src/day10.rs:18-34 | the fields move to `Step` of their old values, and the callback's observations are `Emitted`: one cycle for `noop`, two for `addx` with the change applied after |
| Day10.ParseRender | src/day10.rs:42-47 | round trip: `noop` and `addx v` (any signed `v`) parse back to the instruction |
| Day10.ParseAll | src/day10.rs:42-47 | one instruction per line in order, or the panic (an empty line, a short `addx` line or an operand that does not parse) |
| Day10.Accumulate | src/day10.rs:55-63 | folding the callback over new observations continues the signal sum |
| Day10.SignalStrength | src/day10.rs:51-64 | the loop's total is `Signal` of the whole trace: `cycle * register` summed over cycles 20, 60, 100, 140, 180 and 220 |
| Day10.Part1 | src/day10.rs:50-67 | the answer exists exactly when every line parses, and is the signal strength of the program's trace |
| Day10.Blank | src/day10.rs:74-77 | the screen is 246 bytes: six rows of 40 dots, each followed by a newline |
| Day10.Draw | src/day10.rs:79-92 | drawing keeps the screen 246 bytes long |
| Day10.DrawMeaning | src/day10.rs:79-92 | on a trace of cycles 1, 2, …, drawing panics exactly when a lit pixel falls past the sixth row; otherwise each byte is the newline, `#` where the sprite covered the column during that pixel's cycle, or `.` |
| Day10.IndexInRange | src/day10.rs:81-89 | the pixel index of zero-based cycle `n` is inside the screen exactly when `n < 240` |
| Day10.PixelIndex | src/day10.rs:81-89 | a screen index outside the newline column is reached by exactly one cycle |
| Day10.PaintPixel | src/day10.rs:80-91 | one callback on the array succeeds exactly when `Paint` does and leaves its screen |
| Day10.PaintAll | src/day10.rs:79-92 | painting a batch of observations continues `Draw` over them |
| Day10.DrawPrefix | src/day10.rs:79-92 | a panic on a prefix of the trace is a panic of the whole drawing |
| Day10.TracePrefix | src/day10.rs:79-92 | the trace of a prefix of the program is a prefix of its trace |
| Day10.DrawScreen | src/day10.rs:73-92 | the instruction loop returns `Draw` of the program's trace |
| Day10.Part2 | src/day10.rs:72-97 | the answer is the drawn screen when every line parses; a bad line or a pixel past the screen is the panic |
| Day11.Apply | src/day11.rs:22-28 | `Square` squares the worry level, `Multiply(n)` multiplies it by `n` and `Add(n)` adds `n` |
| Day11.OperationRoundTrip | src/day11.rs:30-42 | round trip: `* old`, `* n` and `+ n` parse back to the operation |
| Day11.OperationNeedsOperator | src/day11.rs:30-42 | text that does not start with `+` or `*` is the panic |
| Day11.Throw | src/day11.rs:88-97 | one throw changes no monkey's rules and takes one item off the thrower's queue |
| Day11.Turn | src/day11.rs:88-98 | a turn changes no monkey's rules |
| Day11.Round | src/day11.rs:87-99 | a round changes no monkey's rules |
| Day11.Rounds | src/day11.rs:86-100 | any number of rounds changes no monkey's rules |
| Day11.ParseAllRoundTrip | src/day11.rs:63-66 | round trip: the starting items written as numbers parse back |
| Day11.From | src/day11.rs:63-70 | the slice from a fixed column exists exactly when the line is that long, and is the rest of the line |
| Day11.ParseMonkey | src/day11.rs:63-79 | a parsed monkey starts with an inspection count of 0 |
| Day11.NonEmpty | src/day11.rs:45 | the filtered lines are non-empty and no more than the input lines |
| Day11.NonEmptyKeeps | src/day11.rs:45 | lines that are all non-empty pass the filter unchanged |
| Day11.ParseBlocks | src/day11.rs:48-80 | one monkey per full block of six lines (a trailing partial block is ignored), each with count 0 |
| Day11.RenderMonkeyRoundTrip | src/day11.rs:63-79 | round trip: the puzzle's six-line block for a monkey parses back to it |
| Day11.RenderBlocksRoundTrip | src/day11.rs:48-80 | round trip: the blocks of several monkeys parse back to them, in order |
| Day11.ParseMonkeysRoundTrip | src/day11.rs:44-83 | round trip: the puzzle text for a list of monkeys parses back to the list |
| Day11.ProcessMonkeys | src/day11.rs:85-101 | the in-place array loop leaves `Rounds` of the old monkeys |
| Day11.RunRound | src/day11.rs:87-99 | one pass over the monkeys leaves `Round` |
| Day11.RunTurn | src/day11.rs:88-98 | the `while let` loop leaves `Turn` |
| Day11.ThrowFront | src/day11.rs:88-97 | one pop, count and push leaves `Throw` |
| Day11.ThrowConserves | src/day11.rs:88-97 | a throw keeps the number of items in play |
| Day11.ThrowRoutes | src/day11.rs:88-97 | the front item leaves the thrower, whose count grows by one, and lands at the back of `test_true_id`'s queue when the divisor divides its new worry level and of `test_false_id`'s otherwise; no other monkey changes |
| Day11.TurnRoutes | src/day11.rs:88-98 | after a turn the thrower's queue is empty, its count has grown by the number of items it held, and every other monkey has received, in order, exactly the items the test routes to it |
| Day11.TurnConserves | src/day11.rs:88-98 | a turn keeps the number of items in play |
| Day11.TurnsConserve | src/day11.rs:87-99 | turns keep the number of items in play |
| Day11.RoundsConserve | src/day11.rs:86-100 | rounds keep the number of items in play |
| Day11.TopTwoMeaning | src/day11.rs:112-124 | the fold returns the largest and the second largest count (a repeated value counted twice, 0 when there are too few) |
| Day11.TopTwoSnoc | src/day11.rs:116-124 | one more step of the fold keeps the top two |
| Day11.ProductDivisible | src/day11.rs:133-136 | every test divisor divides the product of all of them |
| Day11.ReduceKeepsRemainder | src/day11.rs:142 | reducing modulo a multiple of `d` keeps the remainder by `d` |
| Day11.ReductionKeepsTests | src/day11.rs:91-97 | reducing a worry level modulo the product does not change any monkey's throw target |
| Day11.OperationCommutesWithReduction | src/day11.rs:22-28 | every operation commutes with reduction modulo `p` |
| Day11.ProductDividesAll | src/day11.rs:133-136 | on valid monkeys the product is positive and every divisor divides it |
| Day11.InspectCongruent | src/day11.rs:90-97 | inspecting congruent worry levels with and without reduction gives congruent levels and the same target |
| Day11.ThrowCongruent | src/day11.rs:88-97 | a throw keeps the reduced and the unreduced monkeys congruent |
| Day11.TurnCongruent | src/day11.rs:88-98 | a turn keeps them congruent |
| Day11.TurnsCongruent | src/day11.rs:87-99 | turns keep them congruent |
| Day11.RoundsCongruent | src/day11.rs:86-100 | any number of rounds keeps them congruent |
| Day11.ReductionKeepsCounts | src/day11.rs:131-143 | reducing modulo the product of the divisors leaves every inspection count as with no reduction at all |
| Day11.Part2Unreduced | src/day11.rs:131-158 | part 2's answer is the one unreduced worry levels would give |
| Day11.MonkeyBusinessMeaning | src/day11.rs:112-125 | the answer is the product of the largest and the second largest inspection counts |
| Day11.Simulate | src/day11.rs:106-125 | running the monkeys in an array and folding the counts returns `MonkeyBusiness` |
| Day11.Part1 | src/day11.rs:104-126 | 20 rounds dividing by three; the answer is `Part1Answer` |
| Day11.Part2 | src/day11.rs:131-158 | 10000 rounds reducing modulo the product of the divisors; the answer is `Part2Answer` |
| Day12.DescentIsSwappedAscent | src/day12.rs:19-44 | the descent rule is the ascent rule with its cells swapped: climbing allows at most one level up, descending at most one level down |
| Day12.NeighbourList | src/day12.rs:62-90 | at most four cells, and exactly the in-bounds orthogonal neighbours the strategy allows |
| Day12.Neighbours | src/day12.rs:62-90 | the buffer method fills its first `count` slots with `NeighbourList`, in the order left, up, right, down |
| Day12.Push | src/day12.rs:69-72 | writing the next slot appends the cell to the used part of the buffer |
| Day12.Update | src/day12.rs:118-121 | updating one `knowledge_map` cell changes that cell only and keeps the map's shape |
| Day12.TotalDistUpdate | src/day12.rs:118-121 | lowering one distance lowers the sum of distances by the same amount (the search's termination measure) |
| Day12.PopMin | src/day12.rs:105 | `BinaryHeap::pop` on the reversed heap removes one copy of a least entry and keeps the rest |
| Day12.PrependStep | src/day12.rs:62-90 | a legal move followed by a walk is a walk |
| Day12.SettledAfterUpdate | src/day12.rs:117-123 | lowering another cell's distance keeps a settled cell settled |
| Day12.PredsAfterUpdate | src/day12.rs:117-123 | improving a neighbour through the current cell keeps every predecessor link a legal move to a closer cell |
| Day12.NoShorterWalk | src/day12.rs:105-124 | when the least heap entry is finite, every walk from the start to a goal is at least that entry's key long |
| Day12.WalkStaysDone | src/day12.rs:105-126 | once the heap is empty, every walk of at most `usize::MAX` cells from the start ends among the popped cells |
| Day12.CountHops | src/day12.rs:108-114 | following predecessor links from `pos` gives a walk from the start to `pos` of `counts + 1` cells, with `counts` at most `pos`'s recorded distance |
| Day12.AfterPop | src/day12.rs:105-106 | popping the least entry keeps every other reached cell covered by the heap or settled |
| Day12.RelaxSkip | src/day12.rs:117-123 | a neighbour that does not improve is skipped without breaking the loop invariant |
| Day12.RelaxImprove | src/day12.rs:118-122 | recording the improved distance and predecessor and pushing its entry keeps the loop invariant |
| Day12.RelaxBegin | src/day12.rs:117 | the neighbour loop starts with its invariant |
| Day12.RelaxEnd | src/day12.rs:117-123 | after all neighbours the popped cell is settled, the heap keys stay at or above its key and the total distance fell or nothing changed |
| Day12.Expand | src/day12.rs:117-123 | the neighbour loop relaxes every legal neighbour whose distance improves and pushes it, settling the popped cell |
| Day12.PoppedKeyIsLowerBound | src/day12.rs:105-107 | at the pop of an entry, no walk to a goal has fewer than its key steps |
| Day12.ExhaustedSearch | src/day12.rs:105-126 | when the heap runs out, no walk of at most `usize::MAX` cells reaches a goal (the "Path not found" panic) |
| Day12.AscendingSnoc | src/day12.rs:105 | popping keys no smaller than the last keeps the popped keys in order |
| Day12.StepsBetween | src/day12.rs:92-127 | a result is a number of steps some walk from the start to a goal takes and no walk takes fewer; no result means no such walk of at most `usize::MAX` cells, and on a map of at most `usize::MAX` cells no such walk at all; the keys are popped in non-decreasing order |
| Day12.CutLoop | src/day12.rs:92-127 | cutting the loop between two visits of a cell leaves a shorter walk with the same ends |
| Day12.SimpleWalkBound | src/day12.rs:92-127 | a walk that visits no cell twice has at most `height * width` cells |
| Day12.ShortestWalkFits | src/day12.rs:92-127 | any walk to a goal shortens to one that visits no cell twice, so to one of at most `height * width` cells |
| Day12.NoWalkAtAll | src/day12.rs:125-127 | on a map of at most `usize::MAX` cells, "no walk of at most `usize::MAX` cells" means no walk at all |
| Day12.Solve | src/day12.rs:169-187 | the part's answer is the fewest steps with which any walk from the strategy's start meets its end condition; the "Path not found!" panic means no walk solves the puzzle, on a map of at most `usize::MAX` cells |
| Day12.CellHeight | src/day12.rs:141-151 | `S` is height 0, `E` is 25, and a lower-case letter its position in the alphabet |
| Day12.LastIndexOf | src/day12.rs:141-148 | the last index of the character in a line, or none when it is absent |
| Day12.FindLast | src/day12.rs:130-154 | the last occurrence in row-major order, which the repeated assignments leave; none when the character is absent |
| Day12.RowHeights | src/day12.rs:138-152 | one height per byte of the line |
| Day12.GridOf | src/day12.rs:130-167 | a map exists exactly when the lines form a non-empty rectangle; it is valid, each cell holds its character's height, and the start and end are where `S` and `E` last occur (or (0, 0) when absent) |
| Day12.FindLastExtend | src/day12.rs:137-151 | reading one more character moves the last occurrence to it exactly when it is the character sought |
| Day12.FindLastEmptyRow | src/day12.rs:137-151 | an empty line moves no marker |
| Day12.ParseLine | src/day12.rs:137-153 | the inner loop returns the line's heights and updates the remembered `S` and `E` to the last occurrences so far |
| Day12.ParseHeightMap | src/day12.rs:130-167 | the whole parse returns `GridOf` |
| Day12.ReadRows | src/day12.rs:134-154 | every line's heights, and the last `S` and `E` |
| Day12.SolveInput | src/day12.rs:169-187 | input that is not a rectangle has no answer; an answer is the shortest solving walk on the parsed map |
| Day13.CompareNat | src/day13.rs:20 | integers compare by value: `Less` exactly when smaller, `Equal` exactly when equal |
| Day13.PartialCmpTotal | src/day13.rs:17-26 | `partial_cmp` always answers, and `<` holds exactly when the comparison says `Less` |
| Day13.CompareAsLists | src/day13.rs:17-26 | any two values compare as lists: their items, with an integer wrapped in a one-element list |
| Day13.CompareSelf | src/day13.rs:17-26 | every value compares `Equal` to itself |
| Day13.CompareListsSelf | src/day13.rs:21 | every list compares `Equal` to itself |
| Day13.CompareFlip | src/day13.rs:17-26 | the comparison is antisymmetric: swapping the arguments flips the answer |
| Day13.CompareListsFlip | src/day13.rs:21 | list comparison is antisymmetric |
| Day13.CompareTransitive | src/day13.rs:17-26 | the comparison is transitive, strictly so when either step is strict |
| Day13.CompareListsTransitive | src/day13.rs:21 | list comparison is transitive |
| Day13.LtStrictOrder | src/day13.rs:17-26 | `<` is a strict order: irreflexive, asymmetric and transitive |
| Day13.WrappedIntegerEqual | src/day13.rs:22-23 | `n` and `[n]` compare `Equal` although the derived `==` tells them apart |
| Day13.EqualValuesCompareEqual | src/day13.rs:17-26 | equal values compare `Equal` |
| Day13.ProperPrefixSmaller | src/day13.rs:21 | a proper prefix is smaller than the list it starts |
| Day13.LongerNotSmaller | src/day13.rs:182-189 | the test case `[7,7,7,7] < [7,7,7]` is false |
| Day13.DeeperEmptyNotSmaller | src/day13.rs:196-202 | the test case `[[[]]] < [[]]` is false |
| Day13.WrappedIntegerDecides | src/day13.rs:146-155 | the test case `[[1],[2,3,4]] < [[1],4]` is true |
| Day13.InOrderSumSwapped | src/day13.rs:37-48 | when no pair compares `Equal`, each 1-based index counts for exactly one of a list of pairs and its swapped list, so the two sums add up to `1 + 2 + … + n` |
| Day14.Get | src/day14.rs:29-37 | a cell exactly when the coordinates lie inside the window (coordinates left of or above the start wrap past every row and are turned away), and then the cell at the offset coordinates |
| Day14.At | src/day14.rs:77-82 | indexing inside the window returns the same cell `get` would |
| Day14.SetCell | src/day14.rs:84-89 | an assignment through `IndexMut` keeps the window's origin and its dimensions |
| Day14.SetCellGet | src/day14.rs:84-89 | after an assignment the written cell holds the new element and every other coordinate reads as before |
| Day14.AirGrid | src/day14.rs:131-134 | `height` rows, each `width` cells of air |
| Day14.Probe | src/day14.rs:58-62 | a candidate column yields a cell only when it is not negative, and then the cell one row down |
| Day14.TryCandidatesOrder | src/day14.rs:58-67 | candidates are tried down, down-left, down-right: the grain rests exactly when all three are in the window and not air, falls to the first air cell and escapes at the first cell outside the window, each after blocked candidates only |
| Day14.LandingRests | src/day14.rs:57-71 | a grain comes to rest only where the cells below, below-left and below-right are all in the window and none is air |
| Day14.Landing | src/day14.rs:56-73 | where a grain comes to rest lies inside the window |
| Day14.Drop | src/day14.rs:50-74 | the resting place `simulate_sand` reports lies inside the window |
| Day14.After | src/day14.rs:50-74 | the slice after one grain still holds the source cell in its window |
| Day14.LandsOnOpen | src/day14.rs:56-73 | a grain that starts on air or on the source comes to rest on air or on the source, never on rock or sand |
| Day14.SourceFilledStops | src/day14.rs:52-55 | once a grain has rested on the source cell, that cell is sand and the next grain is refused |
| Day14.CountOpenUpdate | src/day14.rs:71-72 | turning one open cell of a row to sand lowers the row's open count by one |
| Day14.OpenCellsUpdate | src/day14.rs:71-72 | turning one open cell of the grid to sand lowers the grid's open count by one |
| Day14.DropFillsOpenCell | src/day14.rs:50-74 | every grain that comes to rest fills exactly one open cell |
| Day14.PourCountBound | src/day14.rs:202-210 | the number of grains poured before one is refused or falls out is at most the slice's open cells, so the loop of the parts ends |
| Day14.Floored | src/day14.rs:39-44 | the floor adds two rows: every old cell reads the same, the first new row is air and the last is rock, and the source stays in the window |
| Day14.CaveSlice.constructor | src/day14.rs:136-140 | the object holds the given origin and cells |
| Day14.CaveSlice.Set | src/day14.rs:84-89 | the object's new cells are the old ones with that one cell assigned |
| Day14.CaveSlice.InsertFloor | src/day14.rs:39-44 | the object's new cells are the old ones with the floor rows appended |
| Day14.CaveSlice.SimulateSand | src/day14.rs:50-74 | returns where one grain comes to rest (or `None`) and leaves the slice with that cell turned to sand |
| Day14.CountSand | src/day14.rs:202-210 | the count of the loop is the number of grains poured into the slice's starting state |
| Day14.SplitOnce | src/day14.rs:102-104 | `None` exactly when the separator is absent, otherwise the text before its first occurrence and the text after it |
| Day14.PointsContain | src/day14.rs:99-126 | every point of every path is among the points read |
| Day14.MinX | src/day14.rs:114-116 | the least x is at most 500 and at most every point's x |
| Day14.MaxX | src/day14.rs:111-113 | the greatest x is at least 500 and at least every point's x |
| Day14.MaxY | src/day14.rs:117-119 | the greatest y is at least every point's y |
| Day14.Windows | src/day14.rs:145 | one window fewer than points (none for fewer than two), each a point paired with the next |
| Day14.Drawn | src/day14.rs:131-163 | the drawn grid has `height` rows of `width` cells |
| Day14.Sized | src/day14.rs:128-140 | a slice that is built holds the source cell in its window |
| Day14.Build | src/day14.rs:128-142 | a slice built from parsed paths holds the source cell in its window |
| Day14.ParseCave | src/day14.rs:94-166 | a slice parsed from text holds the source cell in its window |
| Day14.PaintCell | src/day14.rs:157-161 | painting one segment turns to rock exactly the cells of its rectangle and keeps every other cell |
| Day14.PaintAllSnoc | src/day14.rs:144-163 | drawing one more segment paints over the slice already drawn |
| Day14.PaintAllAppend | src/day14.rs:144-163 | drawing two runs of segments is drawing the first, then the second |
| Day14.PaintAllCell | src/day14.rs:144-163 | after drawing, a cell is rock exactly when some segment covers it, else it is what it was |
| Day14.DrawnIsPainted | src/day14.rs:131-163 | the grid of the parsed paths is the air grid with the source set and every segment painted over it |
| Day14.PathsInside | src/day14.rs:128-140 | every point of every path lies inside a slice that reaches past the extremes |
| Day14.ExtremesSnoc | src/day14.rs:111-122 | one more point moves each extreme only when it lies beyond it |
| Day14.ReadRow | src/day14.rs:100-125 | the row's pairs are parsed as the split-and-parse function says, and the running extremes are those of every point read so far |
| Day14.ReadPaths | src/day14.rs:99-126 | the reading loop returns the parse of every row (or its first error) and the extremes of all the points, with the least y at 0 |
| Day14.DrawSegment | src/day14.rs:146-161 | the object's cells become the old ones with the segment's rectangle painted rock |
| Day14.DrawPath | src/day14.rs:145-162 | the object's cells become the old ones with every window of the path painted |
| Day14.DrawRocks | src/day14.rs:144-163 | the object's cells become the old ones with every segment of every path painted |
| Day14.SizedOk | src/day14.rs:128-140 | when neither subtraction underflows, the slice starts five columns left of the lesser bound and is ten columns wider than the span |
| Day14.ParseCaveSized | src/day14.rs:94-166 | parsing the text is sizing its paths by their extremes |
| Day14.FromStr | src/day14.rs:94-166 | succeeds exactly when the parse function does, with the same error message, and returns a new object holding the parsed slice |
| Day14.SizeCave | src/day14.rs:128-140 | succeeds exactly when sizing does, with the same message, and returns a new object holding the sized slice |
| Day14.NewCave | src/day14.rs:131-163 | a new object holding the air grid with the source set and every path drawn |
| Day14.Part1 | src/day14.rs:202-210 | `None` when the input does not parse, otherwise the grains poured into the parsed slice |
| Day14.Part2 | src/day14.rs:215-224 | `None` when the input does not parse, otherwise the grains poured into the floored slice |
| Day15.Manhattan | src/day15.rs:36-38 | the distance is never negative and is zero exactly between equal points |
| Day15.ManhattanMetric | src/day15.rs:36-38 | the distance is symmetric and obeys the triangle inequality |
| Day15.NextDigit | src/day15.rs:13-18 | the search stops at the first digit at or after its start, and finds nothing only when no digit follows |
| Day15.Field | src/day15.rs:12-31 | a field that is read ends past where its search began and within the line |
| Day15.Fields | src/day15.rs:12-31 | the fields read are as many as asked for |
| Day15.ReadField | src/day15.rs:13-30 | one pass of the loop over `parts` computes the field the search-and-scan function describes |
| Day15.ParseLine | src/day15.rs:6-33 | the `parse` closure on one line gives the report the field reads describe, or `None` where the digit search would run past the line |
| Day15.NextDigitAt | src/day15.rs:13-18 | a digit preceded only by non-digits since the start is where the search stops |
| Day15.FieldAt | src/day15.rs:13-30 | a maximal run of digits after non-digits is the next field, read as its decimal value, and the next search starts where it ends |
| Day15.FieldAfter | src/day15.rs:13-30 | a number written after text without digits is read back as its magnitude, ending where its digits end |
| Day15.ReadStep | src/day15.rs:12-31 | reading one field either ends the read with `None` or moves the fields read and the start on |
| Day15.FieldsStep | src/day15.rs:12-31 | reading `n` fields is reading one field and then `n - 1` from where it ends |
| Day15.FourFields | src/day15.rs:9-32 | four fields read in a row from byte 12 are the four values of the report |
| Day15.ParseReportOfReport | src/day15.rs:5-34 | parsing the text of a report gives back its four coordinates with their signs dropped |
| Day15.SensorOf | src/day15.rs:46 | a sensor keeps its position, has a reach that is not negative, and sees its own beacon |
| Day15.FirstCover | src/day15.rs:66-76 | the sensor loop stops at the first sensor from the start that sees the position, and finds none only when none does |
| Day15.CoversRow | src/day15.rs:50-51 | a sensor sees exactly the positions of a row between its leftmost and rightmost ones |
| Day15.Skip | src/day15.rs:68-71 | a jump is at least one position |
| Day15.SkipSeen | src/day15.rs:68-72 | a jump from a seen position passes only positions the sensor sees and lands at most one past its rightmost one |
| Day15.StepMeaning | src/day15.rs:58-78 | each pass moves forward; a known beacon or a free position moves on by one without counting; from an impossible position the count grows by exactly the jump, every position jumped over is seen, and the jump stays within the bounds |
| Day15.NonBeacons | src/day15.rs:59-64 | at most the span's length, and exactly it when no known beacon lies in the span |
| Day15.ImpossibleSplit | src/day15.rs:56-79 | counting the impossible positions of a span is counting the two parts of any split of it |
| Day15.ImpossibleOfSeen | src/day15.rs:56-79 | where every position is seen, the impossible positions are the ones holding no known beacon |
| Day15.ScanFixedCounts | src/day15.rs:56-79 | the corrected scan counts exactly the impossible positions from its start up to the greatest bound |
| Day15.ScanCountVersusFixed | src/day15.rs:66-75 | the scan as written never counts less than the corrected one, and counts the same when no known beacon is on the row |
| Day15.SkipInside | src/day15.rs:66-75 | every position a jump passes after its start is strictly nearer the sensor than the sensor's own beacon |
| Day15.ScanExactWhenClosest | src/day15.rs:56-79 | when no known beacon is strictly nearer a sensor than that sensor's own beacon, the scan as written counts exactly what the corrected one does |
| Day15.Leftmost | src/day15.rs:43-52 | `smallest` is at most `i64::MAX` and every sensor's leftmost position on the row, and is `i64::MAX` or one of them |
| Day15.Rightmost | src/day15.rs:43-52 | `largest` is at least `i64::MIN` and every sensor's rightmost position on the row, and is `i64::MIN` or one of them |
| Day15.SeenWithinBounds | src/day15.rs:43-58 | every position of the row that a sensor sees lies between `smallest` and `largest` |
| Day15.Insert | src/day15.rs:54 | inserting a sensor into a list ordered by descending reach keeps the order and adds exactly that sensor |
| Day15.SortByReach | src/day15.rs:54 | the sorted sensors are in descending order of reach and are a permutation of the input |
| Day15.SeenReordered | src/day15.rs:54 | reordering the sensors does not change which positions they see |
| Day15.ImpossibleCountReordered | src/day15.rs:54 | reordering the sensors does not change the count of impossible positions |
| Day15.WithinRowReordered | src/day15.rs:54 | reordering the sensors keeps every rightmost position within the bound |
| Day15.ScanFixedReordered | src/day15.rs:54-79 | the corrected scan over the sorted sensors counts the impossible positions of the sensors in input order |
| Day15.RowCountMeaning | src/day15.rs:41-81 | the corrected part 1 count is the number of positions between `smallest` and `largest` where a beacon cannot be |
| Day15.ClosestReordered | src/day15.rs:54 | reordering the sensors keeps every known beacon at least as far from each sensor as its own beacon |
| Day15.RowExactOnClosest | src/day15.rs:43-79 | on closest beacons, the scan as written over the sorted sensors equals the corrected count, which is the number of impossible positions between the bounds |
| Day15.ClosestOfReports | src/day15.rs:45-53 | when no report's beacon is nearer a sensor than that report's own beacon, the sensors and beacons collected from the reports have closest beacons |
| Day15.Part1ExactOnClosest | src/day15.rs:41-82 | on reports whose beacons are closest ones, part 1 as written answers the corrected count of row 2000000 |
| Day15.Part1AnswerOfReports | src/day15.rs:41-82 | once the reports are read, part 1 answers the scan as written of row 2000000 over their sensors and beacons |
| Day15.NoneOutsideBounds | src/day15.rs:43-58 | no position outside `smallest`..`largest` is impossible, so the scan misses none |
| Day15.SkipExampleBounds | src/day15.rs:43-54 | for the two reports of the finding the bounds are 5 and 25, and the sort leaves them in order |
| Day15.SkipExampleScan | src/day15.rs:56-79 | the scan as written counts 20 on the finding's row |
| Day15.SkipExampleFixed | src/day15.rs:56-79 | the corrected scan counts 19 on the finding's row |
| Day15.ScanCountsSkippedBeacon | src/day15.rs:66-75 | on the finding's reports, part 1 as written answers 20 where only 19 positions of the row can hold no beacon; these reports do not have closest beacons |
| Day15.ParseAll | src/day15.rs:6 | one parse result per line, each that line's |
| Day15.CollectMeaning | src/day15.rs:45-53 | the reports are collected exactly when none is missing, and then in their order |
| Day15.CollectPrefixNone | src/day15.rs:45-53 | a report missing early is missing from the whole |
| Day15.ReadAllMeaning | src/day15.rs:45-53 | the input is read exactly when every line is, and then each report is its line's |
| Day15.SensorsOf | src/day15.rs:45-53 | one sensor per report, paired with its distance to its beacon |
| Day15.BeaconsOf | src/day15.rs:45-53 | one beacon per report, that report's beacon |
| Day15.UnzipSnoc | src/day15.rs:45-53 | one more report adds its sensor and its beacon at the ends of the two lists |
| Day15.SkipNotFree | src/day15.rs:104-111 | a jump from a seen position passes no free position |
| Day15.FindInRowFound | src/day15.rs:96-117 | what the row search finds is free, within the row's limits, and no earlier position of the row is free |
| Day15.FindInRowNone | src/day15.rs:96-117 | the row search finds nothing only where no position of the row up to the limit is free |
| Day15.FindGapFound | src/day15.rs:94-118 | what the search finds is a free position of the square and no position before it, row by row, is free |
| Day15.FindGapNone | src/day15.rs:94-120 | the search finds nothing only where no position of the square is free |
| Day15.FreeReordered | src/day15.rs:91 | which positions are free does not depend on the order of the sensors |
| Day15.ReadReports | src/day15.rs:45-53 | `None` exactly when some line never finishes, else the sensors and beacons of the reports |
| Day15.Bounds | src/day15.rs:43-52 | `smallest` and `largest` are the least leftmost and greatest rightmost positions of the sensors on the row |
| Day15.IsBeacon | src/day15.rs:59-64 | true exactly when the position is a known beacon |
| Day15.FindCover | src/day15.rs:66-76 | the loop stops at the first sensor that sees the position |
| Day15.ScanRow | src/day15.rs:56-79 | the loop's `found_count` is the scan count of the row between the bounds |
| Day15.ScanColumns | src/day15.rs:95-117 | the `'x_loop` finds what the row search finds from column 0 |
| Day15.FindPosition | src/day15.rs:94-118 | the `'y_loop` finds what the square search finds from row 0 |
| Day15.Part1 | src/day15.rs:41-82 | `None` where a line never finishes, otherwise the scan count of row 2000000 over the sorted sensors between the bounds |
| Day15.Part2 | src/day15.rs:87-123 | `None` where a line never finishes or no position is free, otherwise `x * 4000000 + y` of the first free position |
| Text.DigitValue | src/day1.rs:13 | a digit's value is below ten |
| Text.DigitChar | src/day1.rs:13 | the character of a value below ten is a digit whose value is that value |
| Text.RunEnd | src/day15.rs:20-23 | the run of digits from a position ends at or after it, within the line, covers only digits, and stops before a non-digit |
| Text.RunEndOfDigits | src/day15.rs:20-23 | the run ends at the first non-digit |
| Text.ParseDigits | src/day15.rs:25-28 | a value exactly for a non-empty run of digits, and then the run's decimal value |
| Text.ParseNat | src/day1.rs:13 | unsigned `parse` succeeds exactly on at least one digit after an optional `+` |
| Text.ParseInt | src/day09.rs:11 | signed `parse` is not positive after a `-`, not negative otherwise, and without a leading `-` succeeds exactly where the unsigned one does |
| Text.NatToString | src/day15.rs:25-28 | a non-empty run of digits, with no leading zero unless the number is 0 |
| Text.DigitsOfNatToString | src/day15.rs:25-28 | the digits of a number's rendering have that number as their value |
| Text.ParseNatRoundTrip | src/day1.rs:13 | parsing the rendering of a natural number gives the number back |
| Text.IntToString | src/day09.rs:11 | the rendering of an integer is never empty |
| Text.ParseIntRoundTrip | src/day09.rs:11 | parsing the rendering of an integer, with its `-` when negative, gives the integer back |
| Text.Split | src/day1.rs:6 | at least one piece, no piece contains the separator, and joining the pieces with it gives the text back |
| Text.JoinDropFirst | src/day1.rs:6 | dropping the first character of a non-empty first piece drops the first character of the join |
| Text.SplitJoin | src/day1.rs:6 | splitting the join of separator-free pieces gives the pieces back |
| Text.Lines | src/day3.rs:46 | no line contains a newline, and on text that does not end in a newline the lines are the pieces between newlines |
| Text.SplitLastEmpty | src/day1.rs:6 | text that ends with the separator splits into at least two pieces, the last one empty |
| Text.JoinEnds | src/day1.rs:6 | the join ends with the last character of the last piece |
| Text.LinesJoin | src/day3.rs:46 | newline-joined lines without newlines, the last one non-empty, read back as the same lines |
| Text.SplitOn | src/day14.rs:101 | splitting on a text pattern gives at least one piece |
| Text.SplitOnPrefix | src/day14.rs:101 | a leading piece free of the pattern's first character stays glued to the first piece of the rest |
| Text.SplitOnJoin | src/day14.rs:101 | splitting the join of pieces free of the pattern's first character gives the pieces back |

## Left out

- `src/runner.rs` and `src/main.rs` are not part of this model. They hold command-line parsing, file reading, printing and wall-clock timing.
- The `expected_value_*` constants are left out because they depend on puzzle inputs that are not available. The conversion of answers to `String` through `anyhow` is left out too, so answers are numbers or `seq<char>`.
- Machine integer widths are not modelled: the `u32` sums of day 1, the `i64` arithmetic of day 15 and the `usize` products of day 11 are unbounded here. The `usize` subtractions whose underflow the contracts name are modelled: day 7's space to free, day 8's `len() - 2`, and day 14's two sizing subtractions, which give `Err` with Rust's message.
- Text.ParseNat: accepts numbers of any size. Rust's `parse` also rejects values above the target type's maximum.
- Text.Lines: does not strip a `\r` before a newline, which `str::lines` does. Input is taken to be ASCII, one `char` per byte.
- The `part_1` and `part_2` bodies of `src/day13.rs` are left out. They parse packets with `simd_json` and run on `rayon` parallel iterators, both foreign libraries. Part 2 also sorts with the derived structural `Ord` rather than the modelled `partial_cmp`. Only `Data` and its `partial_cmp` are modelled, with the pair-sum of part 1 over already parsed pairs (`InOrderSum`).
- The `Display` implementation of `src/day14.rs` (lines 169-199) only renders output and is left out. Day14.Quoted does not reproduce the escapes `{:?}` adds inside error messages.
- Day14.Get: a column left of the window gives `None`, as the wrapping `usize` subtraction of a release build does; a debug build panics there instead. No grain reaches that column in a slice that `from_str` builds, since the window reaches at least as far left as a pile from (500, 0) can spread.
- Day15.Part2: the search over 4,000,001 rows is specified and proved, but it is not evaluated on any input.
- Day15.ParseReport: in the source, a line whose digit search runs past its end loops forever (`input.get` keeps answering `None`). The model returns `None` there. The source skips `-` signs, and the model does the same (Day15.ParseReportOfReport).
- Day15.SortByReach: `sort_unstable_by_key` leaves sensors of equal reach in an unspecified order, and the model fixes one such order. Which positions are seen, and the corrected count, are proved independent of the order. The count of the scan as written can depend on it, but only on reports whose beacons are not closest ones (Day15.RowExactOnClosest).
- Day15.Bounds: `smallest` and `largest` are computed by a second loop over the parsed sensors instead of inside the `inspect` closure. The values are the same.
- Day08.VisibleCount: a row shorter than the row count gives `None`. The source panics only if it reads a missing cell, and a sightline that stops early may never reach one.
- Day08.BestScore: a row shorter than the row count gives `None`. The source panics only if a sightline reaches a missing cell.
- Day09.FollowOf: `follow` as written moves a knot two cells when its predecessor is three or more cells away in the same row or column, which is not the puzzle's rule. A rope that starts taut never gets there (Day09.RunKeepsTaut), so the tail count is unaffected. `Left` increases x and `Right` decreases it, as written, which mirrors the path and keeps the count.
- Day09.Simulate: a negative count makes `build_seen_map`'s box disagree with the simulated head, so `mark_seen` can index outside the map. The model reports this as `false`, and proves success only for non-negative counts.
- Day11.Part1: like `Day11.Part2`, it answers `None` for any monkey list with a divisor of 0, a target id that does not exist, or a monkey that names itself as a target. The source fails only when such a rule fires. Its `%` divides by zero, its index is out of range, or it loops forever when a monkey keeps throwing to itself. A rule that never fires is harmless there: a monkey that never holds an item, or a self-target on the branch its items never take. The model refuses these lists even where the source answers.
- Day12.GridOf: the source takes the width of row 0 and never checks the other rows. The model answers `None` for input that is not a non-empty rectangle.
- Day12.CellHeight: a byte below `a` other than `S` or `E` gives a negative height. The source's `u8` subtraction panics in a debug build or wraps in a release build.
- Day12.StepsBetween: a popped entry is expanded with its cell's current best distance. There is no check that discards a stale entry, and the model follows the code. When the heap runs out, the source panics with "Path not found!", and the model returns `None`.

## Findings

| source | as written | input that shows it | evidently intended | confidence | as-written member | corrected member |
|---|---|---|---|---|---|---|
| src/day4.rs:53-56 | `has_overlap` tests `e1 < e2` where the start `s2` of the second range belongs | the pair `1-5,2-6`, which shares sections 2 to 5, is reported as not overlapping | overlap exactly when `s1 <= e2 && s2 <= e1`, as `src/day04.rs:29-32` has it | not executed | Day4Cursor.OverlapMissed | Day04.HasOverlapMeaning |
| src/day15.rs:66-75 | a jump from a seen position adds its whole length to `found_count`, even when it passes a known beacon on the row | on row 2000000: a sensor at (15, 2000000) with its beacon at (5, 2000000), and a sensor at (10, 2000000) with its beacon at (9, 2000000). The scan answers 20, but only 19 positions of the row cannot hold a beacon | a jump counts only the positions it passes that hold no known beacon. The input needs a known beacon strictly inside another sensor's reach. Reports whose beacons are closest ones, as the "closest beacon is at" wording promises, never have one, and on those the scan as written is exact (Day15.ScanExactWhenClosest, Day15.Part1ExactOnClosest) | not executed; reachable only on reports that break the closest-beacon promise | Day15.ScanCountsSkippedBeacon | Day15.RowCountMeaning |
