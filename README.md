# Advent of Code 2022 puzzle solutions, modelled and verified in Dafny

This project models the Kotlin solutions to the Advent of Code 2022 puzzles
of days 1 to 19 and proves what they compute. It covers the parts of each
solution listed under "## Model"; the parts it does not cover, such as day 17's
part 2 heuristic, input parsing of days 11, 16 and 19, and the stubbed
`part2` functions, are listed under "## Left out". Each solution file
`src/dayNN/DayNN.kt` becomes one module `DayNN` in `dayNN.dfy`; the shared
`Position` class and the `Grid` helpers become `Positions` and `Grids`. The
Kotlin standard-library operations the solutions rely on become `Text`
(`toInt`, `split`, `substringBefore`/`After`, number formatting) and `Lists`
(`sum`, `max`, `sortedDescending`, `take`, `map` with a throwing parser).
`Wrappers` holds `Option` and `Result`; a Kotlin exception is an `Err`
carrying the exception's message, and `null` is `None`.

The model follows the source's own form. Pure Kotlin expressions become
functions. Loops become methods with loop invariants, each proved equal to a
specification function. Objects whose fields the source updates in place
become classes: the day 9 rope, the day 10 CPU, the day 11 monkeys, the
day 17 board and block, and the day 18 point cloud. Each such method's
`ensures` ties the new state to a function of the old one, and lemmas state
what the puzzle promises about that function.

The largest core is the day 19 robot factory. `PossibleStatesFrom` is the successor
function. `Simulate` is the worklist search, proved to return the best
geode count of the recursive specification `BestFrom`, whatever order the
frontier is taken in.

Kotlin's `Int` is 32 bits wide. The model uses unbounded integers everywhere
except `toInt`, which rejects numbers outside the 32-bit range as the Kotlin
function does.

## Model

| member | source | states |
|---|---|---|
| Positions.CompareInts | src/Position.kt:6-9 | `Int.compareTo` is -1, 0 or 1, negative exactly when a < b, zero exactly when a == b |
| Positions.CompareTo | src/Position.kt:5-10 | the order is lexicographic: negative exactly when x is smaller, or x is equal and y is smaller; positive in the mirrored case |
| Positions.CompareZeroIffEqual | src/Position.kt:5-10 | `compareTo` is 0 exactly for equal positions |
| Positions.CompareAntisymmetric | src/Position.kt:5-10 | swapping the operands negates the comparison |
| Positions.CompareTransitive | src/Position.kt:5-10 | the order is transitive |
| Positions.ManhattanDistanceTo | src/Position.kt:12-14 | the distance is \|dx\| + \|dy\|, and it is zero exactly for equal positions |
| Positions.DistanceSymmetric | src/Position.kt:12-14 | the distance is symmetric |
| Positions.DistanceTriangle | src/Position.kt:12-14 | the distance satisfies the triangle inequality |
| Positions.DistanceTranslationInvariant | src/Position.kt:12-22 | shifting both positions by the same offset keeps their distance |
| Positions.Plus | src/Position.kt:20-22 | `plus` adds component-wise |
| Positions.Minus | src/Position.kt:16-18 | `minus` inverts `plus`, so (p - q) + q == p, and \|p - q\| from the origin is the distance from p to q |
| Grids.Width | src/Utils.kt:38-42 | `width` throws exactly on an empty grid, else it is the length of row 0 |
| Grids.Height | src/Utils.kt:44-46 | `height` is the number of rows, zero exactly for an empty grid |
| Grids.Contains | src/Utils.kt:48-50 | `contains` throws exactly on an empty grid, because it calls `width` |
| Grids.ContainsIndexesCell | src/Utils.kt:48-50 | on a rectangular grid, `contains(x, y)` holds exactly when (x, y) indexes a cell |
| Text.ParseInt | src/day01/Day01.kt:15 | `toInt` accepts an optional sign and digits, and only numbers in the 32-bit range |
| Text.ParseIntRoundTrip | src/day01/Day01.kt:15 | `toInt` reads back every 32-bit number as written |
| Text.SplitJoin | src/day18/Day18.kt:25 | `split` cuts at every delimiter: joining the pieces with the delimiter restores the string |
| Text.Split | src/day18/Day18.kt:25 | `split` always gives at least one piece; `SplitJoin` states that the pieces rejoin to the string |
| Text.IndexOf | src/day04/Day04.kt:6 | the delimiter search returns the first occurrence at or after the start, and none only when the delimiter does not occur there |
| Text.DigitToInt | src/day08/Day08.kt:122 | `digitToInt` succeeds exactly on a digit, giving the value below 10 that the digit writes |
| Lists.MaxOf | src/day01/Day01.kt:31 | `max` of a non-empty list is an element no element exceeds; an empty list throws |
| Lists.SortDescending | src/day01/Day01.kt:38 | `sortedDescending` is sorted largest first and a permutation of its input |
| Lists.Take | src/day01/Day01.kt:37 | `take(n)` is the prefix of length n, or the whole list when it is shorter |
| Lists.MinOf | src/day07/Day07.kt:130 | `minByOrNull` is `null` exactly on an empty list, and otherwise a member no member undercuts |
| Lists.ParseEachMeaning | src/day18/Day18.kt:52-54 | parsing every line succeeds exactly when each line parses, with the values in order; otherwise the first failing line's error is thrown |
| Lists.ParseEach | src/day09/Day09.kt:102-104 | a successful `map` with a throwing parser has one value per line; `ParseEachMeaning` states which |
| Day01.EntriesShape | src/day01/Day01.kt:9-16 | one entry per non-empty line; the elf ids never decrease and never exceed the number of blank lines seen |
| Day01.FindElf | src/day01/Day01.kt:18-20 | the `groupBy` lookup finds a total with that elf id, and finds none only when no total has it |
| Day01.CountBlank | src/day01/Day01.kt:11-13 | the elf id after a run of lines is the number of blank lines among them |
| Day01.PrefixErrFails | src/day01/Day01.kt:15 | a line that is not a number fails the whole input |
| Day01.Totals | src/day01/Day01.kt:18-22 | one total per elf id that has entries, ids distinct, each total the sum of that elf's entries |
| Day01.SumForAbsent | src/day01/Day01.kt:18-22 | an elf id without entries contributes nothing |
| Day01.AddEntry | src/day01/Day01.kt:18-22 | one grouping step adds an entry to its elf's total or opens a new total at the end, keeping the ids distinct |
| Day01.ParseInput | src/day01/Day01.kt:7-25 | the loop returns the grouped totals of the entries, or the `NumberFormatException` of the first non-number line |
| Day01.Part1 | src/day01/Day01.kt:28-33 | the result is at least every elf's total and equals one of them; no elf at all throws |
| Day01.TopThree | src/day01/Day01.kt:38 | the three largest totals (all of them when there are fewer), and no left-out total exceeds them |
| Day01.TakeLargest | src/day01/Day01.kt:38 | a prefix of a descending sort holds the largest values |
| Day01.Part2 | src/day01/Day01.kt:34-38 | part 2 is the sum of the three largest totals (see `TopThree`), and with three elves or fewer it adds up every total |
| Day02.Points | src/day02/Day02.kt:5-9 | Rock, Paper and Scissors are worth 1, 2 and 3 |
| Day02.DecodeOpponent | src/day02/Day02.kt:23-28 | exactly `A`, `B` and `C` decode, each to the choice that is written with that letter; any other letter throws |
| Day02.DecodeMine | src/day02/Day02.kt:30-35 | exactly `X`, `Y` and `Z` decode, each to the choice that is written with that letter; any other letter throws |
| Day02.DecodeInvertsLetters | src/day02/Day02.kt:23-35 | A/B/C and X/Y/Z decode to Rock/Paper/Scissors in that order and only those letters decode; any other letter throws |
| Day02.ParseLine | src/day02/Day02.kt:18-37 | a line parses exactly when it has the shape `[ABC] [XYZ]`, and then it is the two letters of the decoded choices |
| Day02.ParseInput | src/day02/Day02.kt:15-41 | the loop returns the lines' pairs in order, or the first bad line's exception |
| Day02.ScoringFollowsRules | src/day02/Day02.kt:46-50 | the table gives 6 exactly when my choice beats the opponent's, 3 exactly on equal choices, 0 exactly on a loss |
| Day02.CalculateScore | src/day02/Day02.kt:45-53 | a round scores between 1 and 9: my choice's points plus 0, 3 or 6 |
| Day02.Part1 | src/day02/Day02.kt:55-58 | the total lies between 1 and 9 points per round |
| Day03.PriorityOf | src/day03/Day03.kt:6-12 | a..z score 1..26 and A..Z score 27..52; any other character throws |
| Day03.PriorityRoundTrip | src/day03/Day03.kt:6-12 | a priority determines its item type |
| Day03.PriorityInjective | src/day03/Day03.kt:6-12 | distinct letters have distinct priorities |
| Day03.FirstCommon | src/day03/Day03.kt:21-23 | the item found occurs in every rucksack of the group; when none is found, no item of the first occurs in all the others |
| Day03.FirstCommonIsTheCommon | src/day03/Day03.kt:21-23 | when exactly one item type is common, `first()` of the intersection is that one |
| Day03.CompartmentPriority | src/day03/Day03.kt:16-24 | a rucksack scores only when its length is even and its halves share exactly one item type, and then it scores that item's priority |
| Day03.BadgePriority | src/day03/Day03.kt:32-36 | a group scores exactly when its three rucksacks share exactly one item type, and then it scores that item's priority |
| Day03.SumResults | src/day03/Day03.kt:15-26 | the running total fails exactly when one of its items fails |
| Day03.FirstErrDecides | src/day03/Day03.kt:15-26 | the first failing item decides the failure of the whole loop |
| Day03.SumResultsBounds | src/day03/Day03.kt:15-26 | per-item bounds bound the total |
| Day03.Part1 | src/day03/Day03.kt:14-27 | the loop returns the sum of the rucksacks' priorities, or the first failure |
| Day03.Part1Bounds | src/day03/Day03.kt:14-27 | part 1 lies between 1 and 52 per rucksack |
| Day03.BadgePriorities | src/day03/Day03.kt:31 | `windowed(3, 3)` makes consecutive groups of three and drops a shorter tail |
| Day03.Part2 | src/day03/Day03.kt:29-39 | the loop returns the sum of the groups' badge priorities, or the first failure |
| Day04.RangeRoundTrip | src/day04/Day04.kt:5-6 | `toIntRange` reads `"a-b"` back as the range a..b for 32-bit naturals a and b |
| Day04.PairRoundTrip | src/day04/Day04.kt:8-9 | `toIntRangePair` reads `"r1,r2"` back as the two ranges |
| Day04.ToIntRange | src/day04/Day04.kt:5-6 | `toIntRange` succeeds exactly when the text before and after `-` are both numbers, and the range runs from the first to the second |
| Day04.ToIntRangePair | src/day04/Day04.kt:8-9 | `toIntRangePair` succeeds exactly when the text before and after `,` are both ranges, and gives those two ranges |
| Day04.FullyContain | src/day04/Day04.kt:11-12 | for a non-empty inner range, the end-point test holds exactly when every section of the inner range is in the outer one |
| Day04.OverlapIsIntersection | src/day04/Day04.kt:14-15 | for non-empty ranges, testing `overlaps` both ways holds exactly when the ranges share a section |
| Day04.Overlaps | src/day04/Day04.kt:14-15 | when the other range is non-empty, a positive `overlaps` means the ranges share a section |
| Day04.ContainmentImpliesOverlap | src/day04/Day04.kt:23-33 | a pair counted by part 1 is counted by part 2 |
| Day04.CountParsed | src/day04/Day04.kt:19-27 | the count never exceeds the number of lines, and it fails exactly when some line fails to parse |
| Day04.FirstErrDecides | src/day04/Day04.kt:21-22 | the first unparsable line decides the exception of the whole count |
| Day04.CountLoop | src/day04/Day04.kt:20-26 | the counting loop returns the number of pairs the rule counts, or the first line's exception |
| Day04.CountMatching | src/day04/Day04.kt:19-37 | the loop shared by both parts returns the count of its specification |
| Day04.Part1 | src/day04/Day04.kt:19-27 | part 1 counts the pairs where one range fully contains the other |
| Day04.Part2 | src/day04/Day04.kt:29-37 | part 2 counts the pairs whose ranges overlap |
| Day04.Part1AtMostPart2 | src/day04/Day04.kt:19-37 | with non-empty ranges, both parts fail on the same inputs, and part 1 never exceeds part 2 |
| Day05.StateLines | src/day05/Day05.kt:18 | `takeWhile` keeps the non-empty lines before the first empty one |
| Day05.StackCount | src/day05/Day05.kt:19-20 | the stack count is the digit just before the last character of the index line; an empty drawing, a short line or a non-digit throws |
| Day05.ColumnContents | src/day05/Day05.kt:24-29 | a stack holds exactly the non-blank characters in its column 1 + 4i, read from the bottom level up |
| Day05.DiagramOf | src/day05/Day05.kt:16-30 | the drawing gives one stack per counted index |
| Day05.ParseDiagram | src/day05/Day05.kt:21-30 | the nested loop fills a fresh stack array equal to the drawing's stacks, or fails where the drawing does |
| Day05.AddLevel | src/day05/Day05.kt:25-29 | one level appends each stack's crate in that level, and fails when the line is too short |
| Day05.MatchCommandComplete | src/day05/Day05.kt:7 | every `move a from b to c` line with digit runs a, b, c matches with those groups |
| Day05.MatchCommandSound | src/day05/Day05.kt:7 | only such lines match |
| Day05.CommandOf | src/day05/Day05.kt:35-45 | a command refers to existing stacks only; the stack numbers are 1-based |
| Day05.CommandRoundTrip | src/day05/Day05.kt:35-45 | a command written with in-range numbers reads back as that command |
| Day05.CommandsOf | src/day05/Day05.kt:33-46 | every command line parsed in order; the first bad line fails |
| Day05.ParseCommands | src/day05/Day05.kt:33-46 | the loop builds the command list of its specification |
| Day05.ReverseReverse | src/day05/Day05.kt:81 | reversing twice restores the order |
| Day05.Reverse | src/day05/Day05.kt:81 | `reversed` keeps the length; `ReverseReverse` states that it undoes itself |
| Day05.MoveOne | src/day05/Day05.kt:63-64 | one crate goes from the top of the source to the top of the destination; an empty source throws |
| Day05.MoveOneConserves | src/day05/Day05.kt:63-64 | a single move keeps every crate |
| Day05.Moves9000Reverse | src/day05/Day05.kt:61-66 | between two stacks, n single moves land the top n crates in reversed order and leave every other stack unchanged; too few crates throw |
| Day05.Moves9000 | src/day05/Day05.kt:62-65 | moving crates one at a time keeps the number of stacks; `Moves9000Reverse` states that the top crates arrive reversed |
| Day05.Moves9000SameStack | src/day05/Day05.kt:61-66 | on one stack, single moves put each crate straight back |
| Day05.Moves9000Conserves | src/day05/Day05.kt:61-66 | part 1 moves keep every crate |
| Day05.MovesFailureStays | src/day05/Day05.kt:62-63 | once a move throws, the command fails |
| Day05.Move9001 | src/day05/Day05.kt:75-82 | a part 2 command moves the top n crates keeping their order, and fails exactly when the source has fewer than n |
| Day05.Move9001Conserves | src/day05/Day05.kt:75-82 | part 2 moves keep every crate |
| Day05.RunAllConserves | src/day05/Day05.kt:61-66 | a whole run of commands keeps every crate, with either crane |
| Day05.RunAll | src/day05/Day05.kt:61-66 | running the commands keeps the number of stacks; `RunAllConserves` states that no crate is lost or made |
| Day05.RunFailureStays | src/day05/Day05.kt:61-66 | a failing command fails the whole run |
| Day05.CraneMove9000 | src/day05/Day05.kt:62-65 | the loop on the stack array performs the part 1 command of its specification |
| Day05.CraneMove9001 | src/day05/Day05.kt:76-81 | the temporary-list moves on the stack array perform the part 2 command of its specification |
| Day05.TopCrates | src/day05/Day05.kt:51-56 | one character per stack, that stack's top crate; an empty stack throws |
| Day05.ListTopCreates | src/day05/Day05.kt:51-56 | the loop returns the top crates of its specification |
| Day05.ApplyCommand | src/day05/Day05.kt:61-82 | one command with the given crane performs the specified move |
| Day05.RunCommands | src/day05/Day05.kt:61-82 | the command loop performs every command in order, stopping at the first failure |
| Day05.Run | src/day05/Day05.kt:58-86 | parse, run the commands, read the tops: the result of `Solve` |
| Day05.Part1 | src/day05/Day05.kt:58-70 | part 1 is `Solve` with the CrateMover 9000 |
| Day05.Part2 | src/day05/Day05.kt:72-86 | part 2 is `Solve` with the CrateMover 9001 |
| Day06.AcceptedIffUnique | src/day06/Day06.kt:8-9 | the window's set has `sequenceLength` elements exactly when the window is full length and its characters are pairwise distinct |
| Day06.FindFrom | src/day06/Day06.kt:7-12 | the scan from window i returns the end of the first unique window at or after i, and fails exactly when there is none |
| Day06.FindUniqueSequenceOffset | src/day06/Day06.kt:6-13 | the result r is at least the length, the characters just before r are pairwise distinct, no earlier window is unique, and the search throws exactly when no window is unique |
| Day07.Size | src/day07/Day07.kt:10-22 | with no negative file size, every node's size, a file's own or the sum over a directory's children, is at least 0 |
| Day07.ChildrenSize | src/day07/Day07.kt:21-22 | with no negative file size, the sum over a directory's children is at least 0 |
| Day07.SizeBoundsSubtree | src/day07/Day07.kt:10-22 | with no negative file size, a node's size is at least the size of every node in its subtree, so the root is the largest directory |
| Day07.Subtree | src/day07/Day07.kt:55-64 | the nodes reachable through child lists, the directory included |
| Day07.FilterExact | src/day07/Day07.kt:55-64 | `filterRecursive` returns exactly the accepted nodes of the subtree |
| Day07.FilterRecursive | src/day07/Day07.kt:55-64 | every node `filterRecursive` returns lies in the directory's part of the tree, at or after the directory; `FilterExact` states that it is exactly the accepted subtree |
| Day07.FindSubdirectory | src/day07/Day07.kt:39-40 | `find` returns a child directory of that name, and fails exactly when there is none |
| Day07.Adopt | src/day07/Day07.kt:43-52 | `children.add` gives the node the next slot and keeps the tree well formed |
| Day07.CdTo | src/day07/Day07.kt:34-48 | `cd` keeps the tree well formed and lands on a directory |
| Day07.CdLands | src/day07/Day07.kt:34-48 | `cd("/")` goes to the root and `cd("..")` to the parent; any other name goes to the child directory of that name, and adds exactly one new empty directory when none existed |
| Day07.TryAdoptEffect | src/day07/Day07.kt:50-53 | `tryAddChild` leaves the tree unchanged exactly when a child of that name exists, and otherwise appends the node |
| Day07.TryAdopt | src/day07/Day07.kt:50-53 | `tryAddChild` keeps the tree well formed; `TryAdoptEffect` states what it changes |
| Day07.FileSystem.constructor | src/day07/Day07.kt:17-19 | a fresh tree holds only the root directory `/`, which is its own parent |
| Day07.FileSystem.AddChild | src/day07/Day07.kt:43 | the in-place `children.add` performs `Adopt` |
| Day07.FileSystem.Cd | src/day07/Day07.kt:34-48 | the in-place `cd` performs `CdTo` |
| Day07.FileSystem.TryAddChild | src/day07/Day07.kt:50-53 | the in-place `tryAddChild` performs `TryAdopt` |
| Day07.ClassifyRender | src/day07/Day07.kt:77-91 | every kind of transcript line is told apart and read back as the line it was printed from |
| Day07.Step | src/day07/Day07.kt:76-91 | one line keeps the tree well formed, and fails exactly on a file line whose size does not parse |
| Day07.ReplayFails | src/day07/Day07.kt:76-92 | a transcript is read exactly when every file line's size parses |
| Day07.Replay | src/day07/Day07.kt:76-92 | replaying the transcript, when it succeeds, leaves a well-formed tree with the current directory on a directory |
| Day07.FileTreeOf | src/day07/Day07.kt:73-94 | `parseFileTree` gives a well-formed tree, and fails exactly when some file line's size does not parse |
| Day07.ApplyLine | src/day07/Day07.kt:77-91 | the loop body applies one line to the tree in place as `Step` does |
| Day07.ParseFileTree | src/day07/Day07.kt:73-94 | the loop builds the tree of `FileTreeOf`, or fails where it does |
| Day07.Part1 | src/day07/Day07.kt:116-120 | part 1 fails exactly when the transcript does |
| Day07.Part1Selects | src/day07/Day07.kt:118 | part 1 sums exactly the directories of size at most 100000 |
| Day07.Part2 | src/day07/Day07.kt:122-132 | part 2 fails exactly when parsing fails or `toFreeAtLeast` is not positive, and otherwise is the smallest size among the directories of size at least `toFreeAtLeast` |
| Day07.SmallestFreeing | src/day07/Day07.kt:129-131 | the root is always a candidate, so `minByOrNull` finds the smallest candidate size |
| Day08.Ascending | src/day08/Day08.kt:123-125 | `from..to` lists the indices from `from` up to `to`, and is empty when `from > to` |
| Day08.Descending | src/day08/Day08.kt:124-126 | `from downTo to` lists the indices from `from` down to `to` |
| Day08.TallestBounds | src/day08/Day08.kt:10-16 | `previousTreeHeight` is the start value or the tallest tree met so far, and no tree met exceeds it |
| Day08.MarkedIff | src/day08/Day08.kt:13-16 | a pass marks a tree exactly when it is taller than the start value and than every earlier tree of its scan |
| Day08.ScanRow | src/day08/Day08.kt:10-17 | the inner loop marks exactly the trees of its scan the pass marks, and touches no other row |
| Day08.VisibilityHorizontally | src/day08/Day08.kt:6-21 | a fresh mask the size of the grid, each row marked by its scan |
| Day08.ScanColumn | src/day08/Day08.kt:27-34 | the inner loop marks exactly the trees of its column scan the pass marks, and touches no other column |
| Day08.VisibilityVertically | src/day08/Day08.kt:23-38 | a fresh mask the size of the grid, each column marked by its scan |
| Day08.MergeInto | src/day08/Day08.kt:45-49 | one mask is OR-ed cell by cell into the merged mask |
| Day08.MergeVisibilityMasks | src/day08/Day08.kt:40-52 | the merged mask has the first mask's size, and a cell is true exactly when it is true in some mask |
| Day08.CountRowsCells | src/day08/Day08.kt:57-59 | the running count equals the number of true cells |
| Day08.CountAllVisible | src/day08/Day08.kt:54-61 | `countAllVisible` is the number of true cells of the mask |
| Day08.ViewingDistance | src/day08/Day08.kt:69-77 | a tree sees at most the whole range, and sees none only when the range is empty |
| Day08.ViewingDistanceAt | src/day08/Day08.kt:70-76 | the count runs up to and including the first tree at least as tall, else to the edge |
| Day08.LineOfSightVertically | src/day08/Day08.kt:63-78 | the vertical loop returns the viewing distance along its column |
| Day08.LineOfSightHorizontally | src/day08/Day08.kt:80-95 | the horizontal loop returns the viewing distance along its row |
| Day08.LeftAlong | src/day08/Day08.kt:100 | walking `x-1 downTo 0` is looking left |
| Day08.LeftDistance | src/day08/Day08.kt:100 | looking left sees no tree exactly when the tree stands in column 0 |
| Day08.RightAlong | src/day08/Day08.kt:101 | walking `x+1..lastIndex` is looking right |
| Day08.RightDistance | src/day08/Day08.kt:101 | looking right sees no tree exactly when the tree stands in the last column |
| Day08.UpAlong | src/day08/Day08.kt:103 | walking `y-1 downTo 0` is looking up |
| Day08.UpDistance | src/day08/Day08.kt:103 | looking up sees no tree exactly when the tree stands in row 0 |
| Day08.DownAlong | src/day08/Day08.kt:104 | walking `y+1..lastIndex` is looking down |
| Day08.DownDistance | src/day08/Day08.kt:104 | looking down sees no tree exactly when the tree stands in the last row |
| Day08.ProductOfFour | src/day08/Day08.kt:106 | the product of the four counts is zero exactly when one of them is |
| Day08.ScenicScoreZeroOnEdge | src/day08/Day08.kt:97-107 | scores are never negative, and a tree scores zero exactly when it stands on the edge |
| Day08.CalculateScenicScore | src/day08/Day08.kt:97-107 | the score is the product of the four viewing distances |
| Day08.MaxInRow | src/day08/Day08.kt:112-116 | one row raises the running maximum to at least every score of the row, and to one of them or not at all |
| Day08.MaxScenicScore | src/day08/Day08.kt:109-119 | the result is at least 0 and every tree's score, and it is 0 or some tree's score |
| Day08.RowMajorComplete | src/day08/Day08.kt:111-112 | the two loops of `maxScenicScore` visit every cell of the grid |
| Day08.AsWrittenFailureStays | src/day08/Day08.kt:113 | one cell that `calculateScenicScore(input, y, x)` cannot index makes the whole loop throw |
| Day08.AsWrittenMax | src/day08/Day08.kt:109-119 | when every swapped cell exists, the loop as written returns the largest score of the swapped cells, or 0 |
| Day08.AsWrittenSquare | src/day08/Day08.kt:109-119 | on a square grid the loop as written agrees with the intended maximum: at least every tree's score, and 0 or some tree's score |
| Day08.AsWrittenNonSquare | src/day08/Day08.kt:113 | on every rectangular grid with a tree that is not square, the loop as written throws |
| Day08.ParseHeights | src/day08/Day08.kt:122 | `digitToInt` on every character gives heights 0 to 9 in the shape of the input, and throws exactly when a character is not a digit |
| Day08.LeftPass | src/day08/Day08.kt:123 | the left-to-right pass marks exactly the trees visible from the left |
| Day08.RightPass | src/day08/Day08.kt:124 | the right-to-left pass marks exactly the trees visible from the right |
| Day08.TopPass | src/day08/Day08.kt:125 | the top-down pass marks exactly the trees visible from the top |
| Day08.BottomPass | src/day08/Day08.kt:126 | the bottom-up pass marks exactly the trees visible from the bottom |
| Day08.MaskCellsVisible | src/day08/Day08.kt:127-129 | a mask marking exactly the visible trees counts the visible trees |
| Day08.VisibleMask | src/day08/Day08.kt:123-127 | the four passes merged mark exactly the trees visible from outside |
| Day08.Part1 | src/day08/Day08.kt:121-130 | part 1 counts the trees visible from outside; it fails exactly on a non-digit, an empty or a ragged grid |
| Day08.Part2 | src/day08/Day08.kt:132-135 | part 2 computes the corrected scoring (see "## Findings"): the best scenic score of the grid, failing exactly on a non-digit or a ragged grid |
| Day09.OffsetOf | src/day09/Day09.kt:16-21 | each direction's offset is a unit step |
| Day09.Clamp | src/day09/Day09.kt:33-34 | `max(-1, min(v, 1))` keeps v within [-1, 1] and cuts it to the nearest bound |
| Day09.Touches | src/day09/Day09.kt:43-44 | two knots touch exactly when their Chebyshev distance (the larger coordinate gap) is at most 1 |
| Day09.TouchesSymmetric | src/day09/Day09.kt:43-44 | touching is symmetric |
| Day09.Plus | src/day09/Day09.kt:41 | `plus` adds the offset component-wise |
| Day09.Move | src/day09/Day09.kt:39 | a move shifts exactly one coordinate by exactly one |
| Day09.Follow | src/day09/Day09.kt:25-37 | `follow` leaves a knot unchanged exactly when it touches the target, moves it by at most one cell, brings it one cell closer otherwise, and touches the target afterwards when it started within two cells |
| Day09.GapTriangle | src/day09/Day09.kt:78-84 | moving a knot by at most one cell changes its gap to another knot by at most one |
| Day09.Pull | src/day09/Day09.kt:82-84 | knots k onwards follow in turn; the knots in front of k are unchanged |
| Day09.Step | src/day09/Day09.kt:77-86 | one step moves the head in the direction and keeps the rope's length |
| Day09.PullChain | src/day09/Day09.kt:82-84 | when every knot touches the one in front, except knot k, which is at most two cells away, pulling restores the chain |
| Day09.StepKeepsChain | src/day09/Day09.kt:75-88 | after every step each knot touches the knot in front of it |
| Day09.Walk | src/day09/Day09.kt:75-88 | `steps` steps keep the rope's length; a non-positive count changes nothing; otherwise the final tail is recorded and at most one cell per step is |
| Day09.WalkChain | src/day09/Day09.kt:75-88 | `moveRope` keeps every knot touching the knot in front of it |
| Day09.WalkStep | src/day09/Day09.kt:76-87 | one more step extends the walk by one rope step and one tail cell |
| Day09.RunAll | src/day09/Day09.kt:70-73 | `run` keeps the rope's length, and the tail visits at most one new cell per step over all movements |
| Day09.RunAllChain | src/day09/Day09.kt:70-73 | `run` keeps the chain |
| Day09.StartIsChain | src/day09/Day09.kt:51 | the starting rope, all knots at the origin, is a chain |
| Day09.Start | src/day09/Day09.kt:51 | the rope has the requested number of knots |
| Day09.Simulation.constructor | src/day09/Day09.kt:50-68 | a rope of the given number of knots at the origin, the tail's cell already recorded |
| Day09.Simulation.StepOnce | src/day09/Day09.kt:78-86 | one pass of the outer loop performs `Step` on the rope array and records the tail |
| Day09.Simulation.Advance | src/day09/Day09.kt:76-87 | the walk grows by one step: the array and the set stand one step further into `Walk`, and the chain is kept |
| Day09.Simulation.MoveRope | src/day09/Day09.kt:75-88 | the in-place `moveRope` performs `Walk` and adds the walk's tail cells to the set |
| Day09.Simulation.Run | src/day09/Day09.kt:70-73 | the in-place `run` performs `RunAll` |
| Day09.ToDirection | src/day09/Day09.kt:91-99 | U, D, L and R are the only directions; anything else throws |
| Day09.ParseMovement | src/day09/Day09.kt:102-104 | a line is read exactly when the text before the first space is a direction and the text after it an integer, and the movement holds those two values |
| Day09.ParseRender | src/day09/Day09.kt:102-104 | every movement whose count fits an `Int` is read back from its line |
| Day09.ToMovementList | src/day09/Day09.kt:102-104 | the list is read exactly when every line is, with each line's movement in order |
| Day09.TailCellsBounds | src/day09/Day09.kt:61-86 | the tail visits the origin and at most one new cell per step, so the count is at least 1 |
| Day09.CountTailCells | src/day09/Day09.kt:63-64 | the simulation's count is the number of cells the tail visits |
| Day09.Part1 | src/day09/Day09.kt:106-113 | part 1 counts the cells a two-knot tail visits, and fails exactly when the input does not parse |
| Day09.Part2 | src/day09/Day09.kt:115-122 | part 2 counts the cells a ten-knot tail visits, and fails exactly when the input does not parse |
| Day10.Rem | src/day10/Day10.kt:58 | Kotlin's `%` takes the sign of the dividend |
| Day10.Initial | src/day10/Day10.kt:22 | a fresh simulator has a screen of 240 pixels, six rows of 40 |
| Day10.ScreenWith | src/day10/Day10.kt:56-61 | `updateScreen` fails exactly when a pixel it would light is off the 240-pixel screen |
| Day10.WatchHitsFacts | src/day10/Day10.kt:49-54 | exactly the watched cycles in (cycle, cycle + cost] are recorded, each with the current X, in increasing order |
| Day10.ExecOne | src/day10/Day10.kt:37-47 | `execute` fails on an unknown opcode and on `addx` without an argument; on success it keeps the 240-pixel screen and advances the cycle counter by the instruction's cost |
| Day10.ExecAll | src/day10/Day10.kt:31-35 | a run that succeeds keeps the 240-pixel screen and advances the cycle counter by the program's total cost (`ExecMeaning` gives the rest of its meaning) |
| Day10.ExecOneWellFormed | src/day10/Day10.kt:37-47 | a `noop` or `addx` fails exactly when it would light a pixel off the screen; otherwise the screen and the records are updated with X from before the instruction, the cycle advances by its cost, and X changes only for `addx`, by its argument |
| Day10.ExecFailureStays | src/day10/Day10.kt:31-35 | a failing instruction fails the whole run |
| Day10.Cycles | src/day10/Day10.kt:40 | the cycle counter never runs backwards over a program of non-negative costs |
| Day10.XSettled | src/day10/Day10.kt:44 | once the program has finished, X no longer changes |
| Day10.ReferenceWatchSplit | src/day10/Day10.kt:49-54 | the records of the last instruction are the watched cycles it spans, with X from before it |
| Day10.ScreenStep | src/day10/Day10.kt:56-61 | the last instruction lights exactly the pixels of its cycles that the sprite covers |
| Day10.ExecMeaning | src/day10/Day10.kt:31-61 | a run from the start fails exactly when a lit pixel falls off the screen; otherwise the cycle counter is the program's length, X its final value, the records exactly the watched cycles with X during each, and the screen the reference screen |
| Day10.Simulator.constructor | src/day10/Day10.kt:13-22 | X starts at 1 and the cycle at 0, with no records, no watches and a dark screen |
| Day10.Simulator.AddWatch | src/day10/Day10.kt:27-29 | `addWatch` adds the cycle and changes nothing else |
| Day10.Simulator.UpdateScreen | src/day10/Day10.kt:56-61 | the loop on the screen array performs `ScreenWith` |
| Day10.Simulator.UpdateWatch | src/day10/Day10.kt:49-54 | the loop appends exactly the watched cycles' records |
| Day10.Simulator.ExecuteOne | src/day10/Day10.kt:37-47 | the in-place `execute` performs `ExecOne` |
| Day10.Simulator.Execute | src/day10/Day10.kt:31-35 | the in-place `execute(operations)` performs `ExecAll` |
| Day10.ParseLine | src/day10/Day10.kt:76-83 | every line read is an instruction the simulator accepts, costing 1 or 2 cycles |
| Day10.ParseRender | src/day10/Day10.kt:76-83 | `noop` and `addx n` lines are read back as their instructions |
| Day10.Program | src/day10/Day10.kt:74-85 | the program is read exactly when every line is, one well-formed instruction per line in order |
| Day10.ParseProgram | src/day10/Day10.kt:74-85 | the loop builds the program of its specification |
| Day10.SignalStrength | src/day10/Day10.kt:97 | the signal strength is the sum, over the records, of cycle times X |
| Day10.Part1 | src/day10/Day10.kt:87-99 | part 1 is the sum of cycle times X over the records of cycles 20, 60, ..., 220, with X as during each cycle |
| Day10.Part2 | src/day10/Day10.kt:101-107 | part 2 draws the reference screen, where a pixel is lit exactly when the sprite covers its column while it is drawn |
| Day11.TokenToValue | src/day11/Day11.kt:35-40 | `old` stands for the input level; any other token must be a number |
| Day11.RunOperation | src/day11/Day11.kt:25-33 | the operation succeeds exactly when both tokens read and the operator is `+` or `*` |
| Day11.RunOperationOld | src/day11/Day11.kt:25-40 | `old * old` squares the level, `old + n` and `old * n` add and multiply by `n` |
| Day11.RunTest | src/day11/Day11.kt:46-48 | the test throws exactly for a zero divisor |
| Day11.RunTestDivisible | src/day11/Day11.kt:46-48 | the test passes exactly for the multiples of its number |
| Day11.Div | src/day11/Day11.kt:58 | Kotlin's `/` rounds towards zero |
| Day11.InspectSpec | src/day11/Day11.kt:53-64 | an inspection fails exactly where the operation or the test throws; otherwise the new level is the operation's result divided by three, and with two distinct targets the item goes to the success target iff the new level is divisible |
| Day11.Monkey.constructor | src/day11/Day11.kt:12-22 | a monkey starts with its starting items and a zero counter |
| Day11.Monkey.Inspect | src/day11/Day11.kt:53-64 | `inspect` raises the counter by exactly one, leaves the items alone and returns the inspection's outcome |
| Day11.TotalItemsUpdate | src/day11/Day11.kt:108-112 | replacing one monkey's state changes the item total by the difference in its list length |
| Day11.ThrowFirst | src/day11/Day11.kt:108-112 | a throw that succeeds keeps the number of monkeys; `ThrowFirstBy` and `ThrowFirstEffect` state the rest of its meaning |
| Day11.ThrowFirstBy | src/day11/Day11.kt:108-112 | a throw fails exactly when the inspection fails or the target is not a monkey; otherwise the first item leaves the thrower, its counter rises by one and the new level is appended to the target |
| Day11.ThrowFirstEffect | src/day11/Day11.kt:108-112 | with no self-targets, a throw removes the thrower's first item, counts it, keeps the item total and only appends to the other monkeys |
| Day11.Turn | src/day11/Day11.kt:107-113 | a turn that succeeds keeps the number of monkeys; `TurnEffect` states the rest of its meaning |
| Day11.TurnEffect | src/day11/Day11.kt:107-113 | after its turn a monkey holds nothing and has counted one inspection per item it held; no other counter moves, no other monkey loses an item, and the item total is kept |
| Day11.Round | src/day11/Day11.kt:104-115 | a round that succeeds keeps the number of monkeys; `RoundConserves` and `RoundStep` state the rest of its meaning |
| Day11.RoundConserves | src/day11/Day11.kt:104-115 | a round keeps the item total and never lowers a counter |
| Day11.RoundStep | src/day11/Day11.kt:105 | the monkeys take their turns in list order |
| Day11.RoundFailureStays | src/day11/Day11.kt:104-115 | a failing turn fails the round |
| Day11.ThrowOne | src/day11/Day11.kt:108-112 | one pass of the inner loop on the monkey objects performs `ThrowFirst` |
| Day11.TakeTurn | src/day11/Day11.kt:107-113 | the inner loop on the monkey objects performs `Turn` |
| Day11.RoundTurn | src/day11/Day11.kt:105-114 | one pass of the outer loop extends the round by one turn, and a failing turn fails the whole round |
| Day11.SimulateRound | src/day11/Day11.kt:104-115 | `simulateRound` on the monkey objects performs `Round` over all of them |
| Day11.Rounds | src/day11/Day11.kt:120-123 | rounds that succeed keep the number of monkeys; `RoundsStep` and `RoundsConserve` state the rest of their meaning |
| Day11.RoundsStep | src/day11/Day11.kt:120-123 | the rounds follow each other |
| Day11.RoundsFailureStays | src/day11/Day11.kt:120-123 | a failing round fails the run |
| Day11.RoundsConserve | src/day11/Day11.kt:120-123 | items are neither lost nor created over any number of rounds |
| Day11.TopTwoSorted | src/day11/Day11.kt:128-129 | the first two counters after a descending sort are the two largest, a repeated maximum counted twice |
| Day11.PlayRound | src/day11/Day11.kt:120-123 | one pass of the rounds loop adds one round |
| Day11.SimulateRounds | src/day11/Day11.kt:120-123 | the rounds loop on the monkey objects performs `Rounds` |
| Day11.MonkeyBusiness | src/day11/Day11.kt:125-129 | the answer exists exactly when the rounds succeed and there are at least two monkeys, and is then the product of the two largest counters |
| Day11.Part1 | src/day11/Day11.kt:117-130 | the monkey business after 20 rounds |
| Day11.Part2 | src/day11/Day11.kt:132-150 | the monkey business after 10000 rounds |
| Day12.Heights | src/day12/Day12.kt:16-34 | the height map has the input's shape |
| Day12.ScanRow | src/day12/Day12.kt:21-31 | one row of the scan normalises the row and moves each marker to the last `S` or `E` seen |
| Day12.RowOfHeights | src/day12/Day12.kt:21-30 | a row with `S` read as `a` and `E` as `z`, and every other cell kept, is that row of the height map |
| Day12.TrackStep | src/day12/Day12.kt:23-30 | a cell holding the marker becomes the marker's position |
| Day12.TrackedNextRow | src/day12/Day12.kt:20-32 | after the last row the tracked marker is the last one in row-major order |
| Day12.ParseMap | src/day12/Day12.kt:16-34 | `parseMap` returns the normalised map and the last `S` and `E`, each (0, 0) when absent |
| Day12.InBounds | src/day12/Day12.kt:45-49 | the filter keeps exactly the positions inside the map, in order, without adding any |
| Day12.CandidatesAdjacent | src/day12/Day12.kt:37-42 | the four candidates are exactly the orthogonal neighbours, all distinct |
| Day12.NeighboursOf | src/day12/Day12.kt:36-50 | `neighboursOf` returns exactly the in-bounds orthogonal neighbours, each once |
| Day12.ExtendPath | src/day12/Day12.kt:83-89 | a climb to a cell extended by one legal step is a climb one step longer |
| Day12.Reachable | src/day12/Day12.kt:78-82 | exactly the neighbours from which the current cell is at most one higher |
| Day12.AssignedWitness | src/day12/Day12.kt:83-85 | every reached count in the list belongs to some reached neighbour |
| Day12.Unvisited | src/day12/Day12.kt:91-92 | exactly the listed cells that are unreached and not already queued |
| Day12.QueueAppend | src/day12/Day12.kt:91-93 | appending new, distinct, unreached cells keeps every queued cell unreached and queued once |
| Day12.InitialSteps | src/day12/Day12.kt:68-69 | the start gets 0 steps and every other cell -1 |
| Day12.SetFromCheapest | src/day12/Day12.kt:83-90 | the cell gets one more than the least count among its reached climbable neighbours, when there is one; nothing else changes and every count stays the length of a real climb |
| Day12.Visit | src/day12/Day12.kt:73-96 | one loop iteration updates only the dequeued cell, as above, and queues its unreached climbable neighbours not already queued |
| Day12.FindWay | src/day12/Day12.kt:67-101 | the result is -1 or the length of a real climb from the start to the end |
| Day12.InitiallySound | src/day12/Day12.kt:68-71 | before the loop every count is -1 or a real climb, and the queue holds the start's neighbours once each |
| Day12.SoundAt | src/day12/Day12.kt:100 | the count read at the end is -1 or the length of a real climb to it |
| Day12.Part1 | src/day12/Day12.kt:103-107 | part 1 fails exactly where the map is empty, has an empty first row or is ragged; otherwise a non-negative answer is the length of a real climb from `S` to `E` |
| Day13.Add | src/day13/Day13.kt:93-95 | `add` appends the packet to a list packet's elements and keeps the others; on a value packet it throws |
| Day13.Scan | src/day13/Day13.kt:59-69 | one character fails exactly when it is not a bracket, a comma or a digit |
| Day13.ScanAllFacts | src/day13/Day13.kt:58-70 | the loop fails exactly at an unknown character and only ever emits brackets and non-empty digit runs |
| Day13.Tokens | src/day13/Day13.kt:47-72 | `tokenize` throws exactly on an unknown character and never emits an empty token |
| Day13.ScanAllConcat | src/day13/Day13.kt:58-70 | scanning two texts in a row is scanning their concatenation |
| Day13.ScanDigits | src/day13/Day13.kt:66 | digits only extend the token in progress |
| Day13.TrailingDigitsDropped | src/day13/Day13.kt:58-71 | digits after the last bracket or comma never become a token |
| Day13.ScanPacket | src/day13/Day13.kt:58-70 | scanning a written packet adds exactly its tokens |
| Day13.ScanElements | src/day13/Day13.kt:58-70 | scanning written comma-separated elements adds exactly their tokens |
| Day13.TokensOfSerialize | src/day13/Day13.kt:47-72 | `tokenize` reads a written list packet back as that packet's tokens |
| Day13.Tokenize | src/day13/Day13.kt:47-72 | the loop computes `Tokens` |
| Day13.FeedAllConcat | src/day13/Day13.kt:30-42 | feeding two token lists in a row is feeding their concatenation |
| Day13.ValueToken | src/day13/Day13.kt:40 | a number's digit run is not a bracket and reads back as the number |
| Day13.FeedPacket | src/day13/Day13.kt:30-42 | feeding a packet's tokens onto a stack of open lists adds that packet to the top one |
| Day13.FeedElements | src/day13/Day13.kt:30-42 | feeding the tokens of several packets adds them, in order, to the top list |
| Day13.ParsePacket | src/day13/Day13.kt:26-45 | only text made of brackets, commas and digits is read as a packet (`ParseSerialize` is its round trip) |
| Day13.ParseSerialize | src/day13/Day13.kt:26-45 | `parseList` reads a written list packet back as that same packet |
| Day13.ParseList | src/day13/Day13.kt:26-45 | the loop over the tokens with a packet stack computes `ParsePacket` |
| Day13.Compare | src/day13/Day13.kt:103-119 | `compareTo` returns -1, 0 or 1 |
| Day13.CompareCases | src/day13/Day13.kt:104-111 | two values compare as integers; a value met by a list is compared as a one-element list |
| Day13.Equals | src/day13/Day13.kt:97-101 | `equals` holds exactly when `compareTo` is 0, whichever operand is asked first |
| Day13.EqualsWrapped | src/day13/Day13.kt:97-101 | `equals` is not structural equality: 1 equals [1] |
| Day13.CompareAntisymmetric | src/day13/Day13.kt:103-119 | swapping the operands negates the comparison |
| Day13.CompareReflexive | src/day13/Day13.kt:97-119 | every packet `equals` itself |
| Day13.ValuesAsElements | src/day13/Day13.kt:104-118 | two values compare like their one-element lists |
| Day13.CompareViaElements | src/day13/Day13.kt:110-118 | every comparison is the lexicographic comparison of the element lists |
| Day13.CompareTransitive | src/day13/Day13.kt:103-119 | the order is transitive, strictly where one step is strict, and `equals` is transitive |
| Day13.PairsParsed | src/day13/Day13.kt:9-24 | every pair comes from two consecutive lines, each read by `parseList` |
| Day13.ParseFile | src/day13/Day13.kt:9-24 | the loop over the lines computes `Pairs` |
| Day13.IndexSumBounds | src/day13/Day13.kt:125-133 | the index sum is at most 1 + 2 + ... + n, reached exactly when every pair is in order |
| Day13.Part1 | src/day13/Day13.kt:123-134 | part 1 fails exactly when the file does not parse, and is otherwise the sum of the 1-based positions of the pairs in order |
| Day13.Insert | src/day13/Day13.kt:142 | inserting adds one element (`InsertPermutation` and `InsertSorted` state which, and where) |
| Day13.InsertPermutation | src/day13/Day13.kt:142 | inserting adds exactly one packet |
| Day13.Sort | src/day13/Day13.kt:142 | `sorted()` keeps the list's length (`SortPermutation` and `SortSorted` state that it is an ordered permutation) |
| Day13.SortPermutation | src/day13/Day13.kt:142 | `sorted()` is a permutation of its input |
| Day13.InsertSorted | src/day13/Day13.kt:142 | inserting into a sorted list keeps it sorted |
| Day13.SortSorted | src/day13/Day13.kt:142 | `sorted()` orders its result by `compareTo` |
| Day13.IndexOf | src/day13/Day13.kt:143 | `indexOf` returns -1 or a position in the list (`IndexOfMeaning` states which) |
| Day13.IndexOfMeaning | src/day13/Day13.kt:143 | `indexOf` is the first position holding a packet that `equals` the key, or -1 when there is none |
| Day13.CountLessPermutation | src/day13/Day13.kt:142-143 | the number of packets ordered before a key does not depend on their order |
| Day13.IndexOfSorted | src/day13/Day13.kt:143 | in a sorted list, the first packet equal to a present key sits after exactly the smaller ones |
| Day13.SortRank | src/day13/Day13.kt:142-143 | a packet's position after sorting is the number of packets ordered before it |
| Day13.FlattenAt | src/day13/Day13.kt:141 | `flatMap` lists each pair's left then right packet, in order |
| Day13.Flatten | src/day13/Day13.kt:141 | two packets per pair; `FlattenAt` states which, in order |
| Day13.Position | src/day13/Day13.kt:142-143 | a divider's 1-based position in the sorted packets is one more than the number of packets ordered before it |
| Day13.DecoderKey | src/day13/Day13.kt:138-143 | the product of the dividers' positions is the product of one plus the number of packets ordered before each divider, counted over the pairs' packets and both dividers |
| Day13.Part2 | src/day13/Day13.kt:136-144 | part 2 fails exactly when the file does not parse, and is otherwise the product of one plus the number of packets ordered before each divider |
| Day14.MakeLine | src/day14/Day14.kt:12-18 | a segment is built exactly when its start is smaller than its end and it is straight; the order check fails first |
| Day14.IsVertical | src/day14/Day14.kt:12-26 | a valid vertical segment runs downwards; any other valid one is a row running right |
| Day14.OnLineIsBox | src/day14/Day14.kt:63-72 | on a valid segment the cells drawn are exactly those of its bounding box |
| Day14.CoveredIff | src/day14/Day14.kt:63-73 | a cell is drawn by the list exactly when one of its segments covers it |
| Day14.ParsePoint | src/day14/Day14.kt:39-43 | `x,y` reads exactly when both halves are numbers, as the position one left and one up |
| Day14.ParseRenderPoint | src/day14/Day14.kt:39-43 | a written point is read back shifted by one in each coordinate |
| Day14.ParsePoints | src/day14/Day14.kt:39-43 | `map` yields one position per piece |
| Day14.ParsePointsMeaning | src/day14/Day14.kt:39-43 | every piece is parsed in order, and a single unreadable piece fails the whole path |
| Day14.Segment | src/day14/Day14.kt:46-49 | two consecutive points make a segment exactly when they differ and share a row or column; the smaller one becomes its start |
| Day14.PathSegments | src/day14/Day14.kt:44-50 | the loop yields one segment per consecutive pair so far |
| Day14.PathSegmentsMeaning | src/day14/Day14.kt:44-51 | the path succeeds exactly when every consecutive pair makes a segment, and its segments are those pairs', in path order |
| Day14.ParseSegments | src/day14/Day14.kt:38-52 | `parseSegments` reads the ` -> ` separated points and returns the segments between consecutive ones, or the first failure |
| Day14.PathSegmentsFailureStays | src/day14/Day14.kt:45-50 | the first bad pair fails the whole path |
| Day14.FillColumn | src/day14/Day14.kt:65-67 | the cells of the column between the two rows become rock, and nothing else changes |
| Day14.FillRow | src/day14/Day14.kt:69-71 | the cells of the row between the two columns become rock, and nothing else changes |
| Day14.FillWithRocks | src/day14/Day14.kt:62-74 | exactly the cells covered by some segment become rock; the others keep their contents |
| Day14.AddFloor | src/day14/Day14.kt:76-81 | exactly the bottom row becomes rock |
| Day14.ContainsPosition | src/day14/Day14.kt:116-118 | a position is on the map exactly when both coordinates index a cell |
| Day14.FallPositions | src/day14/Day14.kt:92-98 | three candidates, all one row down and at most one column away from straight below |
| Day14.FirstMove | src/day14/Day14.kt:103-110 | a fall is only ever to an air cell of the map among the candidates |
| Day14.FirstOpen | src/day14/Day14.kt:103-110 | the candidates before the deciding one are all on the map and not air |
| Day14.FirstMoveOrder | src/day14/Day14.kt:103-111 | the first candidate that is off the map or air decides: off the map ends the fall, air is taken, and with none the grain rests |
| Day14.Settle | src/day14/Day14.kt:100-114 | a grain at rest has its three candidates on the map and blocked, never rises, and unless it stays where it was dropped it rests on an air cell of the map |
| Day14.TryCandidates | src/day14/Day14.kt:103-110 | the `for` loop over the candidates computes `FirstMove` |
| Day14.DropSandAt | src/day14/Day14.kt:100-114 | `dropSandAt` returns where the grain settles, or nothing once it leaves the map |
| Day15.DistanceToBeacon | src/day15/Day15.kt:10 | the beacon distance is the Manhattan distance measured either way, and zero only when the beacon sits on the sensor |
| Day15.XSensingRange | src/day15/Day15.kt:12-16 | the range is centred on the sensor's column and spans twice the beacon distance |
| Day15.CouldSense | src/day15/Day15.kt:12-18 | a sensor can always sense its own beacon and its own position, and every position it can sense lies within its `xSensingRange` columns |
| Day15.RangeIsTight | src/day15/Day15.kt:12-18 | on the sensor's own row, every column of the range is sensed |
| Day15.DigitRun | src/day15/Day15.kt:21 | `\d+` is matched greedily: the run is all digits and stops at a non-digit |
| Day15.DigitRunOf | src/day15/Day15.kt:21 | a digit run followed by a non-digit is matched in full |
| Day15.SignedNumber | src/day15/Day15.kt:21 | a `-?\d+` group is a non-empty prefix of the text |
| Day15.MatchFields | src/day15/Day15.kt:21-24 | a match yields one group per literal |
| Day15.MatchSensorLine | src/day15/Day15.kt:21-24 | a matching line yields the four number groups |
| Day15.FieldOfRendered | src/day15/Day15.kt:21 | a literal followed by a written number is matched up to the next non-digit |
| Day15.SignedNumberOfRendered | src/day15/Day15.kt:21 | a written number followed by a non-digit is matched in full by `-?\d+` |
| Day15.SignedNumberOfDigits | src/day15/Day15.kt:21 | an optional minus and a digit run followed by a non-digit are matched in full |
| Day15.MatchRendered | src/day15/Day15.kt:21-24 | written numbers are matched back when every later literal starts with a non-digit |
| Day15.SensorLiteralsStartNonDigit | src/day15/Day15.kt:21 | the literals after the first one in the sensor line pattern all start with a non-digit |
| Day15.ParseSensor | src/day15/Day15.kt:23-27 | a line is read exactly when it matches the pattern and all four groups are integers, and the sensor holds those four numbers in order |
| Day15.ParseRenderSensor | src/day15/Day15.kt:21-27 | `parseSensor` reads every sensor with 32-bit coordinates back from its input line |
| Day15.MinFirst | src/day15/Day15.kt:33 | `minOfOrNull` is null exactly for no sensors, and otherwise the least range start |
| Day15.MaxLast | src/day15/Day15.kt:34 | `maxOfOrNull` is null exactly for no sensors, and otherwise the greatest range end |
| Day15.RowWindow | src/day15/Day15.kt:38-41 | a window holding the sensor's range finds exactly the positions it rules out on the row |
| Day15.NoBeaconRow | src/day15/Day15.kt:36-44 | every position collected is on the scanned row (`NoBeaconRowMeaning` states which ones) |
| Day15.NoBeaconRowMeaning | src/day15/Day15.kt:36-44 | a position is counted exactly when it is on the row and some sensor senses it while it is not that sensor's beacon |
| Day15.WindowCovers | src/day15/Day15.kt:37-43 | a window holding every sensor's range scans exactly the ruled-out positions |
| Day15.ScanAll | src/day15/Day15.kt:37-43 | the outer loop collects the positions every sensor rules out in the window |
| Day15.ScanWindow | src/day15/Day15.kt:33-43 | the window from one left of the least range start to one right of the greatest range end holds every range |
| Day15.ScanRow | src/day15/Day15.kt:38-42 | the inner loop adds exactly the window's positions of the row the sensor rules out |
| Day15.Part1 | src/day15/Day15.kt:31-45 | part 1 fails exactly on an unreadable line or no sensors, and is otherwise the number of positions of the row where a beacon is ruled out |
| Day16.WalkExtend | src/day16/Day16.kt:46 | a walk extended by a neighbour of its last valve is a walk |
| Day16.WalkStaysInside | src/day16/Day16.kt:40-47 | a walk that starts in a set closed under neighbours never leaves it |
| Day16.ClosedUnreachable | src/day16/Day16.kt:49 | a target outside a closed set around the source cannot be reached |
| Day16.Enqueue | src/day16/Day16.kt:46 | the entries added extend the visited path, only for unvisited neighbours, and every unvisited neighbour gets one |
| Day16.Advance | src/day16/Day16.kt:41-46 | a visit removes the front entry, keeps the rest of the queue in order, and appends only entries one tunnel further, to neighbours of the visited valve that were not visited before |
| Day16.WeightAppend | src/day16/Day16.kt:46 | appending to the queue adds the weights |
| Day16.WeightUnvisited | src/day16/Day16.kt:46 | a queue of unvisited valves weighs its length |
| Day16.WalkPrefix | src/day16/Day16.kt:41-46 | every prefix of a walk is a walk, and the next valve is a neighbour of where it ends |
| Day16.EnqueuedOk | src/day16/Day16.kt:45-46 | the entries a visit adds extend the visited entry's walk by one tunnel without coming back to the source |
| Day16.OrderStep | src/day16/Day16.kt:41-46 | appending entries one level beyond the front keeps the queue ordered by level, within one level of the front |
| Day16.FrontierStep | src/day16/Day16.kt:45-46 | after a visit every unvisited neighbour of a visited valve is still queued within one level of it |
| Day16.ShorterStep | src/day16/Day16.kt:40-47 | once the front moves on a level, every valve at the old front's distance has been visited |
| Day16.DistanceStep | src/day16/Day16.kt:45 | a valve visited for the first time is visited at its distance from the source |
| Day16.MeasureStep | src/day16/Day16.kt:40-47 | a visit either visits a new valve or removes a stale entry without adding weight, so the search ends |
| Day16.SoundStep | src/day16/Day16.kt:41-46 | a visit keeps every queued entry a walk from the source and the visited set inside the search |
| Day16.FrontStep | src/day16/Day16.kt:41-46 | a visit keeps the queue ordered by level and every unvisited neighbour queued |
| Day16.DepthStep | src/day16/Day16.kt:41-46 | a visit keeps every level equal to the distance and every shorter walk visited |
| Day16.SearchStart | src/day16/Day16.kt:38-39 | the queue holding only the source, with nothing visited, satisfies the loop's invariants |
| Day16.SearchFound | src/day16/Day16.kt:42-43 | when the target comes off the queue, its path without the source is a walk to the target, and no walk reaches the target in fewer tunnels |
| Day16.SearchExhausted | src/day16/Day16.kt:40-49 | an emptied queue means the target cannot be reached |
| Day16.ShortestPathTo | src/day16/Day16.kt:35-50 | asking for the source itself throws; otherwise the result is a shortest walk to the target that never comes back to the source, or `null` exactly when the target cannot be reached |
| Day16.MoveCost | src/day16/Day16.kt:59-61 | the cost exists exactly when the destination differs from the source and is reachable, and is one more than the length of a shortest walk to it |
| Day17.FreeRowsMeaning | src/day17/Day17.kt:25-31 | the free rows are exactly the empty rows above the first row holding rock |
| Day17.FreeRows | src/day17/Day17.kt:25-31 | the free rows never exceed the board's height; `FreeRowsMeaning` states which rows they are |
| Day17.FreeRowsAtLeast | src/day17/Day17.kt:25-31 | empty rows above a row make at least that many free rows |
| Day17.FreeRowsAtMost | src/day17/Day17.kt:25-31 | rock in a row leaves at most that many free rows above it |
| Day17.AddRowsKeepHeight | src/day17/Day17.kt:20-23 | adding empty rows on top adds as many free rows and keeps the tower's height |
| Day17.ShapesValid | src/day17/Day17.kt:154-161 | there are five rocks, each rectangular, at most four rows tall and fitting two cells from the left wall |
| Day17.ShapeOf | src/day17/Day17.kt:161-171 | the rocks repeat in cyclic order, each one valid |
| Day17.SettleOnlyAdds | src/day17/Day17.kt:128-134 | settling fills exactly the rock's cells and clears nothing |
| Day17.SettleRaises | src/day17/Day17.kt:128-134 | settling never lowers the tower and raises it at most to the rock's top row |
| Day17.Place | src/day17/Day17.kt:177-181 | placing keeps every row seven cells wide (`PlaceMeaning` states where the rock appears) |
| Day17.PlaceMeaning | src/day17/Day17.kt:177-181 | the board keeps its rows under any new empty ones and its tower; the rock appears at column 2, fitting, with exactly three empty rows between its bottom and the tower |
| Day17.PlaceFits | src/day17/Day17.kt:110-126 | a rock wholly above the tower overlaps nothing |
| Day17.Push | src/day17/Day17.kt:186-191 | a jet never changes the row, and a rock that fits still fits after it |
| Day17.StuckRestsOnTower | src/day17/Day17.kt:194-201 | a rock that cannot fall any more touches the tower or the floor |
| Day17.Fall | src/day17/Day17.kt:183-202 | the rock comes to rest no higher than it started, where it cannot fall, still fitting if it fitted, having used at least one jet |
| Day17.FallLands | src/day17/Day17.kt:194-202 | a rock that fitted where it started comes to rest touching the tower or the floor |
| Day17.DropRock | src/day17/Day17.kt:175-205 | a round keeps every row seven cells wide (`RoundHeight` states how the tower grows) |
| Day17.RoundHeight | src/day17/Day17.kt:175-205 | a rock never lowers the tower and raises it by at most its own height, and uses at least one jet |
| Day17.Run | src/day17/Day17.kt:165-211 | every round keeps the rows seven cells wide (`RunGrows` and `RunBound` state how the tower grows) |
| Day17.RunGrows | src/day17/Day17.kt:175-205 | the tower never shrinks from one round to a later one |
| Day17.RunBound | src/day17/Day17.kt:165-211 | after `n` rocks the tower is at most `4n` rows tall |
| Day17.RunUsesJets | src/day17/Day17.kt:170-191 | each rock uses at least one jet |
| Day17.RunUnfold | src/day17/Day17.kt:175-205 | round `n` drops rock `(n - 1) mod 5` onto the board left by round `n - 1` |
| Day17.RunStep | src/day17/Day17.kt:175-205 | one round raises the tower by zero to four rows and advances the jets |
| Day17.Board.constructor | src/day17/Day17.kt:14 | a new board has no rows |
| Day17.Board.AddTopRows | src/day17/Day17.kt:20-23 | `addTopRows` puts that many empty rows in front, none for a negative count |
| Day17.Board.FreeRowsFromTop | src/day17/Day17.kt:25-31 | the loop returns the free rows |
| Day17.Board.OccupiedHeight | src/day17/Day17.kt:41-44 | `occupiedHeight` is the tower's height |
| Day17.Block.constructor | src/day17/Day17.kt:90-91 | a block starts at (0, 0) with its mask |
| Day17.Block.OverlapsWithAnythingAt | src/day17/Day17.kt:118-126 | the scan reports a clash exactly when a rock cell of the mask lands on rock |
| Day17.Block.CanMove | src/day17/Day17.kt:110-116 | `canMove` holds exactly when the rock stays within the seven columns and the board and overlaps nothing |
| Day17.Block.Move | src/day17/Day17.kt:103-108 | `move` takes the new position exactly when the rock fits there, and says so |
| Day17.Block.MoveLeft | src/day17/Day17.kt:97 | a move one column left, when it fits |
| Day17.Block.MoveRight | src/day17/Day17.kt:99 | a move one column right, when it fits |
| Day17.Block.Gust | src/day17/Day17.kt:188-191 | `<` tries a move left, `>` a move right, and anything else does nothing |
| Day17.Block.MoveDown | src/day17/Day17.kt:101 | a move one row down, when it fits |
| Day17.Block.SettleOn | src/day17/Day17.kt:128-134 | `settleOn` ORs the mask into the board at the rock's position |
| Day17.PlaceBlock | src/day17/Day17.kt:177-181 | the in-place placement computes `Place` |
| Day17.FallBlock | src/day17/Day17.kt:183-202 | the gust and fall loop ends where `Fall` says and settles the rock there |
| Day17.DropBlock | src/day17/Day17.kt:176-202 | one round on the board object computes `DropRock` |
| Day17.Simulate | src/day17/Day17.kt:165-211 | `simulate` returns the tower's height after the given number of rocks, none for a negative count |
| Day17.Part1 | src/day17/Day17.kt:213-216 | part 1 fails exactly on an empty input, and is otherwise the tower's height after 2022 rocks driven by the first line's jets |
| Day18.Neighbours | src/day18/Day18.kt:11-21 | six neighbours |
| Day18.NeighboursMeaning | src/day18/Day18.kt:11-21 | the six neighbours are distinct and are exactly the cubes at distance one, that is sharing a face |
| Day18.NeighbourSymmetric | src/day18/Day18.kt:11-21 | being neighbours is symmetric, and no cube is its own neighbour |
| Day18.ParseRender | src/day18/Day18.kt:24-27 | `parse` reads every position with 32-bit coordinates back from its `x,y,z` line |
| Day18.Parse | src/day18/Day18.kt:24-27 | a line with fewer than three comma-separated fields throws; otherwise it parses exactly when the first three fields are numbers, giving the position of those three |
| Day18.ParseIgnoresExtraFields | src/day18/Day18.kt:25 | fields after the third one are ignored |
| Day18.ParseRenderFields | src/day18/Day18.kt:24-27 | a written position followed by nothing or by further fields is read back |
| Day18.SplitRendered | src/day18/Day18.kt:25 | the first three fields of a written position are its three coordinates |
| Day18.SplitThree | src/day18/Day18.kt:25 | splitting three comma-free fields and a tail on commas yields the three fields first |
| Day18.LastField | src/day18/Day18.kt:25 | a comma-free field before nothing or a comma is split off whole |
| Day18.InsertedMeaning | src/day18/Day18.kt:34-36 | set insertion keeps the cubes distinct, adds exactly the new cube, and is idempotent |
| Day18.Deduplicated | src/day18/Day18.kt:52-54 | the cloud built from the input holds every cube read exactly once and nothing else |
| Day18.CountAbsent | src/day18/Day18.kt:41-44 | at most one missing neighbour per neighbour looked at |
| Day18.FreeFaces | src/day18/Day18.kt:40-45 | at most six free faces per cube |
| Day18.SurfaceArea | src/day18/Day18.kt:38-47 | the surface area is at most six faces per cube; `SurfaceAreaOfSet` states that it depends only on the set |
| Day18.CountAbsentAllButOne | src/day18/Day18.kt:41-44 | with none or exactly one of the cubes in the cloud, the count is all or all but one |
| Day18.SingleCube | src/day18/Day18.kt:38-47 | a lone cube shows all six faces |
| Day18.CountAbsentSameMembers | src/day18/Day18.kt:42 | only membership in the cloud matters, not its order or repeats |
| Day18.FreeFacesSameMembers | src/day18/Day18.kt:42 | the free faces depend only on the cloud's members |
| Day18.FreeFacesConcat | src/day18/Day18.kt:40-45 | the free faces of two lists of cubes add up |
| Day18.FreeFacesPermutation | src/day18/Day18.kt:40 | visiting the cubes in another order gives the same total |
| Day18.DistinctMultiplicity | src/day18/Day18.kt:32 | a list without repeats holds each member once |
| Day18.SurfaceAreaOfSet | src/day18/Day18.kt:32-47 | the surface area depends only on the set of cubes, not on insertion order |
| Day18.TwoTouchingCubes | src/day18/Day18.kt:38-47 | two cubes sharing a face hide that face on both, leaving ten |
| Day18.OneNeighbourPresent | src/day18/Day18.kt:41-44 | exactly one neighbour of a cube is in a cloud of it and one neighbour |
| Day18.PointCloud.constructor | src/day18/Day18.kt:31-32 | a new cloud is empty |
| Day18.PointCloud.Add | src/day18/Day18.kt:34-36 | `add` is set insertion, keeping the cubes distinct |
| Day18.PointCloud.CalculateSurfaceArea | src/day18/Day18.kt:38-47 | the nested loops count, for every cube, the neighbours missing from the cloud |
| Day18.Part1 | src/day18/Day18.kt:51-56 | part 1 fails with the first unreadable line's error, and is otherwise the surface area of the set of cubes read |
| Day19.Minus | src/day19/Day19.kt:22-24 | subtraction is component-wise, and adding the subtrahend back gives the original |
| Day19.Plus | src/day19/Day19.kt:18-20 | addition is component-wise |
| Day19.PlusThenMinus | src/day19/Day19.kt:18-24 | subtracting the addend again gives the original |
| Day19.CanBuy | src/day19/Day19.kt:28-30 | a robot can be bought exactly when paying for it leaves no coordinate negative |
| Day19.MaxYield | src/day19/Day19.kt:49-57 | the ore, clay and obsidian caps are each the largest cost in that coordinate over the four robots, and the geode cap is 0 |
| Day19.ParsedBlueprint | src/day19/Day19.kt:60-87 | a parsed blueprint's robots each yield one unit of their own resource, and its caps are the largest ore cost, the obsidian robot's clay cost and the geode robot's obsidian cost |
| Day19.BuyRobot | src/day19/Day19.kt:134-136 | buying pays the cost, adds the robot's yield, and leaves the clock alone |
| Day19.Chosen | src/day19/Day19.kt:115-129 | one to four candidate states, all at the parent's minute |
| Day19.ProduceAll | src/day19/Day19.kt:131 | each candidate gets one minute of the parent's production |
| Day19.PossibleStatesFrom | src/day19/Day19.kt:111-132 | no successor once the time is up; otherwise one to four, each a minute later; an affordable geode robot is the only choice, and otherwise doing nothing comes first |
| Day19.NonGeodeChoices | src/day19/Day19.kt:120-129 | without an affordable geode robot, the other candidates are exactly the affordable obsidian, clay and ore robots whose yield is below its cap |
| Day19.SuccessorsStayValid | src/day19/Day19.kt:111-136 | stock and production stay non-negative, since purchases follow `canBuy` |
| Day19.MaxMinutes | src/day19/Day19.kt:94-98 | the largest minutes left in the frontier |
| Day19.BestFrom | src/day19/Day19.kt:99-103 | the best found from a state is never below the best found before it; `FloorShift` states it is a running maximum |
| Day19.BestOfAll | src/day19/Day19.kt:96-107 | the best found over a frontier is never below the best found before it; `OrderIrrelevant` and `StateCommutes` state that the order does not matter |
| Day19.FloorShift | src/day19/Day19.kt:99-103 | the best found so far acts as a running maximum over a state's finished descendants |
| Day19.FloorShiftAll | src/day19/Day19.kt:99-103 | the same over a whole frontier |
| Day19.StateCommutes | src/day19/Day19.kt:96-107 | exploring one state before or after a frontier gives the same best |
| Day19.BestOfAllConcat | src/day19/Day19.kt:106 | exploring two frontiers in a row is exploring their concatenation |
| Day19.RemoveAt | src/day19/Day19.kt:98 | any state may be taken out of the frontier first without changing the best |
| Day19.OrderIrrelevant | src/day19/Day19.kt:94-98 | the order in which the priority queue hands out states does not change the best geode count |
| Day19.WeightConcat | src/day19/Day19.kt:106 | the frontier's termination weight adds up over concatenation |
| Day19.WeightUniform | src/day19/Day19.kt:131 | states with equal minutes left weigh alike |
| Day19.SuccessorsWeighLess | src/day19/Day19.kt:111-132 | a state's successors weigh less than the state, so the search ends |
| Day19.PopStep | src/day19/Day19.kt:96-107 | one iteration, scoring a finished state or replacing it by its successors, keeps the best reachable geode count and lowers the weight |
| Day19.IndexOfFewestMinutes | src/day19/Day19.kt:36-40 | the queue pops a state with the fewest minutes left |
| Day19.NextQueueValid | src/day19/Day19.kt:98-106 | the queue after a pop and after adding the successors holds only non-negative states |
| Day19.FoldsCommute | src/day19/Day19.kt:96-107 | two frontiers explored in either order give the same best |
| Day19.Simulate | src/day19/Day19.kt:91-109 | `simulate` returns a state whose geode count is the best over every finished state the search reaches from the start, and that is the start state or a finished state, with non-negative stock for a well-formed blueprint |

## Left out

- File reading (`readInput`), `md5`, the logging helpers and every printing or `toString` member, including day 7's `toScript`. Input arrives as a sequence of lines, and nothing is printed.
- The `main` functions' sample checks and real-input answers. The sample files are not part of this model, and the day 19 search space is far too large to unfold in a proof.
- The `part2` stubs that return 0 (days 2, 12, 15, 16, 18 and 19), and day 2's sample check of that stub.
- Regular-expression matching (days 2, 5, 15, 16 and 19) is library code. Days 2 and 5 check the line shape directly and then convert the captured letters and numbers. Day 15 matches the fixed literals and signed digit runs of its pattern.
- Text.ParseInt accepts only the ASCII digits `0` to `9`. Kotlin's `toInt` also accepts the decimal digits of other Unicode scripts.
- Text.DigitToInt, Day05.StackCount and Day08.ParseHeights read only the ASCII digits `0` to `9`. Kotlin's `digitToInt` also reads the decimal digits of other Unicode scripts, so on such input the model fails where the source goes on. Day 5's `Solve` (and so Day05.Part1 and Day05.Part2) and Day08.Part1 and Day08.Part2 inherit this restriction.
- Kotlin's 32-bit `Int` wraps on overflow. The model uses unbounded integers, so large day 11 worry levels, scenic-score products and resource counts do not wrap. Only `toInt` keeps its 32-bit range check.
- Day05.Run: the error's message is not stated, only that an error occurs exactly when the specification fails; the same holds for Day05.ParseCommands and Day05.ListTopCreates.
- Day09.Part1: the error's message is not stated, only when it occurs; the same holds for Day09.Part2.
- Day09.Simulation.constructor requires at least one knot. With none, the source throws on the empty rope.
- Day10.Part1: the error's message is not stated, only when it occurs; the same holds for Day10.Part2.
- Day10.ExecOne: on an unknown opcode the source has already updated the screen, the watch records and the cycle counter before it throws. The model drops that partial state with the error.
- Day08.Part1 returns an error for an empty or ragged grid. The source reads row 0's width and ignores longer rows.
- Day08.Part2 computes the corrected scoring of "## Findings", not the source's. The source throws on every rectangular grid with a tree that is not square (`AsWrittenNonSquare`) and agrees on square grids (`AsWrittenSquare`). The model also returns an error for a ragged grid, where the source sizes the loops by each row.
- Day11's `parseMonkey` and `parseInput` are not modelled. The monkeys are given as objects.
- Day11.Turn requires that no monkey throws an item to itself, as in the puzzle inputs. The source handles such a monkey: the item goes to the back of its own list and is inspected again with a new worry level, until it leaves or the turn runs forever. The model does not cover that case.
- Day11.Round: the same no-self-throw requirement as Day11.Turn.
- Day11.Rounds: the same no-self-throw requirement as Day11.Turn.
- Day11.TakeTurn: the same no-self-throw requirement as Day11.Turn.
- Day11.RoundTurn: the same no-self-throw requirement as Day11.Turn.
- Day11.SimulateRound: the same no-self-throw requirement as Day11.Turn.
- Day11.PlayRound: the same no-self-throw requirement as Day11.Turn.
- Day11.SimulateRounds: the same no-self-throw requirement as Day11.Turn.
- Day11.MonkeyBusiness: the same no-self-throw requirement as Day11.Turn.
- Day11.Part1: the same no-self-throw requirement as Day11.Turn.
- Day11.Part2: the same no-self-throw requirement as Day11.Turn.
- Day11.ThrowFirstEffect, Day11.TurnEffect, Day11.RoundStep, Day11.RoundConserves, Day11.RoundFailureStays, Day11.RoundsStep, Day11.RoundsFailureStays and Day11.RoundsConserve are stated under the same requirement.
- Day12.FindWay: the loop is not guaranteed to stop, because a cell that stays unassigned can be queued again and again. The model runs it with a `fuel` bound and returns `None` when the bound runs out. For a count it returns, it proves that a path of that length exists; minimality is not proved.
- Day12.Part1 rejects a ragged map; the source sizes every row by row 0.
- Day14.FillWithRocks requires every segment end to lie on the map; the source throws an index error otherwise. Day 14's `parseFile`, the map sizing in `part1`/`part2` (`maxOf` over all points) and the counting loops of both parts are not modelled.
- Day15.ParseSensor: the error's message is not stated, only when it occurs. The source throws on the first group `toInt` rejects; the model checks all four and reports one error.
- Day 16's `parseFile`, the `Float` benefit in `calculateMove` and the greedy `visitValve` are not modelled. The graph is a parameter, and only the BFS and the integer move cost are modelled.
- Day 17's `part2` is a period-extrapolation heuristic driven by a hand-supplied length and is not modelled. Nor are the unused `bulkheadHeight` and the `toMask` string parsing; the five shapes are written out as masks.
- Day17.Part1 requires a non-empty first line, because the source cycles forever through an empty jet sequence. The endless `repeat` sequences are an index taken modulo the length.
- Day 17 reuses one `Block` object per shape, resetting its position each round. The model allocates a fresh block per round, which behaves the same since the position is reset.
- Day 19's `part1` (the quality-level sum over parsed blueprints), `parseFactoryBlueprint`'s pattern matching and the `check` calls are not modelled. `ParsedBlueprint` states what a blueprint built from the captured costs holds.
- Day19.Simulate: `java.util.PriorityQueue` becomes a sequence from which the state with the fewest minutes left is taken. `OrderIrrelevant` proves that the order does not change the result.

## Findings

| source | as written | input that shows it | evidently intended | confidence | as-written member | corrected member |
|---|---|---|---|---|---|---|
| src/day08/Day08.kt:113 | `maxScenicScore` calls `calculateScenicScore(input, y, x)`, so the row index goes into the column parameter | the one-row grid `12`: the second cell asks for row 1, which does not exist, and the call throws; the same happens on every rectangular grid that is not square | score the cell in row `y`, column `x`, giving the largest scenic score of any tree | not executed | Day08.AsWrittenNonSquare | Day08.MaxScenicScore |
