# Advent of Code 2024 solutions, modelled and verified in Dafny

This project models a set of Go solutions to the Advent of Code 2024 puzzles: days 1, 2, 4 to 12 and 14 to 19. Each day has its own module. The module holds the day's data (lists, grids, maps of tiles, robots, disk files, a CPU, a trie) and its operations, written in the same form as the Go code:

- Loops that update variables or mutate slices and maps become methods with loop invariants.
- Structures the Go code changes in place become arrays or classes with `modifies` clauses. Examples are the robot slice of day 14, the tile map of day 15, the CPU of day 17, the board of day 18 and the trie of day 19.
- Pure helpers become functions.

Each method is proved against a specification function or predicate. Lemmas then prove what the puzzle promises about that specification, for example:

- Sorting pairs up columns independently of line order.
- A report is safe exactly when its steps are monotone and small.
- The regions of a garden are disjoint, cover the board and have the stated area and perimeter.
- A breadth-first search returns the fewest steps exactly when the goal is reachable.
- The cheapest-route search marks exactly the tiles on cheapest routes.
- The memoised towel counter counts exactly the splits of a design into towel patterns.

Two modules are shared:

- `Common`: `Option`, positions, Go's truncating remainder, digit values and modular arithmetic facts.
- `MinHeap`: the priority queue, modelled as a multiset from which `Pop` returns an item of least priority.

Each module's doc comments cite the Go lines it follows.

## Model

| member | source | states |
|---|---|---|
| Day01.Column | 1/main.go:25-32 | the left or right column has one entry per input line, entry i taken from line i |
| Day01.Sort | 1/main.go:34-35 | the sorted column is in ascending order, is a permutation of the input (same multiset) and has its length |
| Day01.SortedUnique | 1/main.go:34-35 | two ascending sequences holding the same multiset are equal, so the sorted order is unique |
| Day01.SortDependsOnlyOnMultiset | 1/main.go:34-35 | sorting two permutations of each other gives the same sequence |
| Day01.SortInPlace | 1/main.go:34-35 | after slices.Sort the array holds the sorted permutation of its old contents |
| Day01.ReadColumns | 1/main.go:25-32 | the two fresh arrays hold the left and right columns of the lines |
| Day01.Distance | 1/main.go:42-46 | the distance of two values is a - b or b - a and never negative |
| Day01.DistanceSum | 1/main.go:37-47 | the summed distance is non-negative and zero for two equal lists |
| Day01.SumDistances | 1/main.go:37-49 | the loop returns the sum of the pairwise distances of the two arrays |
| Day01.SumSortedPairs | 1/main.go:24-50 | part 1 is the distance sum of the two columns, each sorted |
| Day01.TotalDistanceDependsOnlyOnMultisets | 1/main.go:24-50 | part 1 depends only on the multiset of each column |
| Day01.TotalDistanceIgnoresLineOrder | 1/main.go:24-50 | permuting the input lines leaves part 1 unchanged |
| Day01.SameMultisetsGiveZero | 1/main.go:24-50 | when both columns hold the same multiset, part 1 is 0 |
| Day01.CountOne | 1/main.go:62-66 | counting one more right value keeps `seen` mapping exactly the values read to their number of occurrences |
| Day01.ComputeSimilarityScore | 1/main.go:52-76 | the score is the sum over left values v of v times the number of occurrences of v in the right column |
| Day01.WeighByCounts | 1/main.go:69-75 | with `seen` counting the right column, the second loop returns that similarity score |
| Day01.AbsentValuesAddNothing | 1/main.go:71-73 | a left value absent from the right column adds nothing to the score |
| Day01.SimilarityIgnoresLeftOrder | 1/main.go:70-74 | the score depends only on the multiset of the left column |
| Day02.StepsFromMeans | 2/main.go:79-89 | the step loop from index i succeeds exactly when every later adjacent step is strict in the chosen direction and at most 3 apart |
| Day02.IsReportSafe | 2/main.go:69-90 | a report whose first two levels are equal is unsafe; reports of fewer than two levels are safe (the corrected behaviour) |
| Day02.IsReportSafeMeans | 2/main.go:69-90 | isReportSafe holds exactly when the first step is strict and every step keeps its direction and differs by at most 3 |
| Day02.IsReportSafeAsWritten | 2/main.go:69-77 | the function as written fails (None) exactly on reports of fewer than two levels, and otherwise agrees with IsReportSafe |
| Day02.Delete | 2/main.go:57 | deleting level j keeps the levels before j and shifts the ones after it down by one |
| Day02.TolerableAsWrittenFailsOnTwoEqualLevels | 2/main.go:51-62 | on the report "5 5" the tolerance loop as written calls isReportSafe on a one-level report and fails, although deleting a level makes the report safe |
| Day02.TolerableAsWrittenAgrees | 2/main.go:51-62 | whenever the loop as written does not fail, it decides the report like the corrected rule |
| Day02.DeletionsAgree | 2/main.go:54-62 | the deletion loop from j, when it does not fail, finds a safe deletion exactly when one exists at an index >= j |
| Day02.SafeWithoutLast | 2/main.go:51-62 | deleting the last level of a safe report leaves it safe |
| Day02.TolerableMeansSomeDeletion | 2/main.go:51-62 | a non-empty report counts with tolerance exactly when deleting some single level makes it safe |
| Day02.CountSafe | 2/main.go:25-40 | at most every report is counted safe |
| Day02.CountTolerable | 2/main.go:42-67 | at most every report is counted with tolerance |
| Day02.SafeCountAtMostTolerableCount | 2/main.go:25-67 | part 1's count is at most part 2's count, which is at most the number of reports |
| Day02.CountSafeAsWrittenAgrees | 2/main.go:25-40 | part 1 as written fails exactly when some report has fewer than two levels, and otherwise counts like the corrected rule |
| Day02.OneLevelReportFailsAsWritten | 2/main.go:34-51 | the one-level report "7" is safe, yet both parts as written fail on it at the first isReportSafe call |
| Day02.ComputeSafeReports | 2/main.go:25-40 | returns the number of safe reports, counting reports of fewer than two levels as safe (the corrected rule, see Findings) |
| Day02.ComputeSafeReportsWithTolerance | 2/main.go:42-67 | returns the number of reports that are safe or become safe after deleting one level, counting reports of fewer than two levels as safe (the corrected rule, see Findings) |
| Day04.DoXmasWordSearch | 4/main.go:22-73 | returns the number of (cell, orientation) pairs from which XMAS or SAMX reads rightwards, downwards, down-right or up-right |
| Day04.WordsAt | 4/main.go:26-68 | the eight bounds-guarded comparisons at one cell count exactly the orientations reading XMAS or SAMX from it |
| Day04.Probes | 4/main.go:28-66 | each guarded comparison of four letters holds exactly when the word reads from the cell in that orientation |
| Day04.NoStartLettersNoHits | 4/main.go:27-48 | a grid without 'X' and 'S' has no XMAS hits |
| Day04.DoXDashMasWordSearch | 4/main.go:75-100 | returns the number of interior 'A' cells whose two diagonals each hold M and S |
| Day04.XMasAtMostInteriorAs | 4/main.go:78-97 | part 2 is at most the number of interior 'A' cells |
| Day05.RequiredBeforeMeans | 5/main.go:30-39 | page a is listed as a prerequisite of page b exactly when some rule reads "a\|b" |
| Day05.RequiredBeforeLength | 5/main.go:35-38 | every rule ending in b adds exactly one entry to b's list |
| Day05.ComputePrerequisitePages | 5/main.go:24-42 | the map has a key b exactly when some rule ends in b, and maps it to the first pages of those rules in rule order |
| Day05.BuildOrderMap | 5/main.go:52-59 | the fresh array holds the update's pages and orderMap maps each page of the update to its last index |
| Day05.CheckUpdate | 5/main.go:61-76 | the update is reported correct exactly when no page has one of its prerequisites at the same or a later index |
| Day05.CleanPassMeansCorrect | 5/main.go:92-111 | a pass of the repair loop that finds no error leaves an update of distinct pages correct |
| Day05.SwapKeepsIndex | 5/main.go:100-102 | swapping two pages and their orderMap entries keeps orderMap naming an index of every page |
| Day05.Swap | 5/main.go:100 | the two entries are exchanged, the rest of the array is kept, and the pages stay a permutation |
| Day05.FixInvalidUpdate | 5/main.go:88-114 | the repaired pages are a permutation of the update; the result is their middle page; for distinct pages the repaired update is correct |
| Day05.DistinctOfPermutation | 5/main.go:88-114 | a permutation of distinct pages has distinct pages |
| Day05.Incorrect | 5/main.go:80-82 | every update sent to repair is an input update that is not correct |
| Day05.ComputeUpdates | 5/main.go:44-86 | the first sum is the sum of the middle pages of the correct updates; the second, unless a repair ran out of passes, is the sum of the middle pages of repairs of the incorrect updates, in input order |
| Day05.TallyCorrect | 5/main.go:78-79 | a correct update leaves the sum of the repaired middle pages unchanged |
| Day05.TallyRepaired | 5/main.go:80-81 | an incorrect update adds its repair and that repair's middle page |
| Day05.FirstRequiredBeforeAll | 5/main.go:61-76 | when the rules order every pair of pages, the first page of a correct update is required before every other page |
| Day05.CorrectOrderIsUnique | 5/main.go:88-114 | when the rules order every pair of distinct pages, two correct orders of the same pages are equal, so the repaired middle page is determined |
| Day05.TailKeepsOrder | 5/main.go:61-76 | dropping the first page keeps distinctness, total order and correctness |
| Day06.ParseBoard | 6/main.go:37-60 | the board has the first line's width and the line count as height, an obstacle exactly at every '#', facing up, and the guard on the last '^' in reading order, or at (0, 0) when there is none |
| Day06.ParsedGuardIsFree | 6/main.go:37-60 | a guard parsed from a '^' stands in bounds on a tile that is not an obstacle |
| Day06.TurnRight | 6/main.go:106 | turning right keeps a facing in 0..3 |
| Day06.StepGuardSpec | 6/main.go:84-114 | stepGuard fails exactly when the tile ahead is off the map and then keeps the state; otherwise it moves onto the free tile ahead keeping the facing, or turns right in place before an obstacle; valid states stay valid |
| Day06.RunAdd | 6/main.go:68-79 | a + b steps of the guard are a steps followed by b steps |
| Day06.ExitsWithinMeans | 6/main.go:68-79 | the guard leaves within n steps exactly when one of the first n + 1 states has the map edge ahead |
| Day06.TilesIndependent | 6/main.go:62-82 | the set of tiles crossed does not depend on the step bound used to describe it |
| Day06.TilesAvoidObstacles | 6/main.go:62-82 | a guard starting off the obstacles never crosses one |
| Day06.TilesInBounds | 6/main.go:62-82 | every tile crossed is on the map |
| Day06.TraceGuardPath | 6/main.go:62-82 | for a guard that leaves the map, the result is exactly the set of tiles it stands on before leaving |
| Day06.States | 6/main.go:131-147 | the finite set of states holds exactly the valid guard states of the board |
| Day06.RoomForNewState | 6/main.go:142-147 | recording a new valid state never makes the record larger than the number of valid states, so the trial run ends |
| Day06.RepeatMeansNoExit | 6/main.go:142-144 | once a state repeats before any exit, the guard never leaves |
| Day06.RepeatMeansLoop | 6/main.go:142-144 | a repeated state means the guard loops |
| Day06.DetectLoop | 6/main.go:130-151 | the trial run reports a loop exactly when the guard never leaves the map |
| Day06.PrefixEndsInExit | 6/main.go:136-140 | a trial that reaches the map edge proves the guard does not loop |
| Day06.PrefixRepeats | 6/main.go:142-144 | a trial whose next state was recorded proves that the guard loops |
| Day06.FindLoops | 6/main.go:116-162 | the count is the number of path tiles other than the start where one extra obstacle makes the guard loop, at most the path's size, and the obstacle set is left as it was |
| Day06.LoopTilesStep | 6/main.go:123-155 | trying one more tile adds one to the count exactly when that tile is not the start and makes the guard loop |
| Day07.Digits | 7/main.go:56 | the number of decimal digits of n: n is below 10 to that power, and at least 10 to one less once n >= 10 |
| Day07.Decimal | 7/main.go:56 | the decimal text of n has Digits(n) characters, all digits |
| Day07.ValueOfDecimal | 7/main.go:56 | reading back the decimal text of n gives n |
| Day07.ValueOfAppend | 7/main.go:56 | the value of two digit strings written together is the first shifted by the second's length plus the second |
| Day07.ConcatIsTextual | 7/main.go:56 | for non-negative operands the concatenation operator equals Atoi of the two decimal texts written together |
| Day07.SearchMeans | 7/main.go:38-61 | the search from idx succeeds exactly when some choice of +, * and concatenation for the remaining operands, evaluated left to right, reaches the target |
| Day07.SearchWitness | 7/main.go:38-61 | a successful search yields an operator list that evaluates to the target |
| Day07.WitnessSearch | 7/main.go:38-61 | an operator list that evaluates to the target makes the search succeed |
| Day07.SingleOperand | 7/main.go:41-43 | a line with one operand is valid exactly when the operand is the target |
| Day07.ValidSumBounds | 7/main.go:21-36 | with non-negative targets the answer lies between 0 and the sum of all targets |
| Day07.FindValidEquations | 7/main.go:21-36 | returns the sum of the targets of the lines whose search from the first operand succeeds |
| Day08.ParseBoard | 8/main.go:32-52 | the board has the first line's width and the line count as height; each frequency lists only positions holding that character, in reading order, and every non-'.' cell is listed under its character |
| Day08.ParseCell | 8/main.go:36-43 | recording one more cell keeps the antenna lists exactly the cells read so far |
| Day08.ParseLine | 8/main.go:35-44 | reading one more line keeps the antenna lists exactly the cells of the lines read so far, in reading order |
| Day08.OrderedIsDistinct | 8/main.go:35-45 | antennae listed in reading order are distinct |
| Day08.Offset | 8/main.go:77-78 | the spacing of two antennae is (0, 0) exactly when they coincide |
| Day08.WalkMeans | 8/main.go:123-136 | a walk from an in-bounds point holds exactly the in-bounds points p + k d for k >= 0 |
| Day08.Part1WithinPart2 | 8/main.go:67-141 | every part 1 antinode of a pair is also a part 2 antinode of it |
| Day08.AntinodesMeans | 8/main.go:73-92 | a point is an antinode of a frequency exactly when it is an antinode of some pair i < j of its antennae |
| Day08.SingleAntenna | 8/main.go:73-92 | a frequency with one antenna has no antinodes |
| Day08.AntinodesInBounds | 8/main.go:82-89 | every antinode lies on the map |
| Day08.AntennaeAreAntinodes | 8/main.go:123-136 | in part 2 both antennae of each pair on the map are antinodes |
| Day08.FindAntinodes | 8/main.go:67-95 | returns the in-bounds points b + d and a - d over all pairs (a, b), b after a, with spacing d |
| Day08.FindAllAntinodes | 8/main.go:110-141 | for distinct antennae, returns the in-bounds points of both walks along the line of every pair |
| Day08.MarkRow | 8/main.go:75-91 | the inner loop adds the part 1 antinodes of the pairs (i, j), j > i |
| Day08.MarkAllRow | 8/main.go:117-137 | the inner loop adds the part 2 antinodes of the pairs (i, j), j > i |
| Day08.MarkPair | 8/main.go:77-90 | one pair adds exactly its two candidate points that are on the map |
| Day08.MarkWalks | 8/main.go:120-136 | for two distinct antennae, the two walks add exactly the in-bounds points reached from the second antenna stepping by their spacing and from the first stepping back by it |
| Day08.WalkInto | 8/main.go:123-128 | the walking loop adds exactly the in-bounds points p, p + d, ... up to the map edge |
| Day08.CountAntinodes | 8/main.go:54-65 | returns the number of distinct points that are antinodes of some frequency (part 1, or part 2 when asked) |
| Day08.UnionAdd | 8/main.go:56-61 | merging one more frequency adds exactly its antinodes |
| Day08.UnionInBounds | 8/main.go:54-65 | every counted point lies on the map |
| Day09.BlockAt | 9/main.go:163-181 | in the block picture, a position in the gap before file k is free and a position inside file k holds k's id |
| Day09.ParseDisk | 9/main.go:35-61 | one file per even digit, file k with id k, size the digit 2k and start the sum of the digits before it; the length is the sum of all digits |
| Day09.ParsedLayout | 9/main.go:35-61 | parsed files are in order without overlap, the first starts at 0, and all end within the disk's length |
| Day09.ParsedNonEmpty | 9/main.go:35-61 | the parsed files are all non-empty exactly when no file digit (even position) of the disk map is 0 |
| Day09.ScanStep | 9/main.go:165-179 | one cursor step keeps the scan state: the checksum covers exactly the used blocks before the cursor |
| Day09.ComputeChecksum | 9/main.go:163-181 | for files in order and none empty, the result is the sum of position times id over the used blocks below the disk's length |
| Day09.CompactIds | 9/main.go:77-123 | compaction keeps exactly the ids of the used blocks, with their multiplicities |
| Day09.CompactUsedFirst | 9/main.go:108-116 | a used block at the front stays where it is |
| Day09.CompactDropFree | 9/main.go:100-106 | free blocks at the end are dropped |
| Day09.CompactKeepsPrefix | 9/main.go:108-116 | a run of used blocks at the front is kept in place |
| Day09.SingleFileHasNoGap | 9/main.go:77-123 | the disk map "1" has no free block, so the part 1 loop would index past its only file |
| Day09.ReadingBackward | 9/main.go:96-106 | reading a gap block from the reverse cursor keeps the loop invariant: the checksum so far plus the compaction of the blocks between the cursors is the answer |
| Day09.ReadingForward | 9/main.go:108-116 | reading a file block at the forward cursor keeps the loop invariant, and the next file exists when this one ends |
| Day09.CompactingDone | 9/main.go:94-122 | once the cursors cross, the checksum is that of the compacted blocks |
| Day09.ComputeCompactedChecksum | 9/main.go:77-123 | for a disk with a gap, files in order, none empty and the first at 0, the result is the checksum of the blocks after moving each last used block into the first free one |
| Day09.ReadBackward | 9/main.go:96-106 | the gap branch of the loop keeps the invariant and moves the reverse cursor back |
| Day09.ReadForward | 9/main.go:108-116 | the file branch of the loop keeps the invariant |
| Day09.FitsOnTheLeft | 9/main.go:147 | a gap that takes a file lies before it, so files only move left |
| Day09.ReinsertChangesOne | 9/main.go:149-155 | moving file i to index k keeps the number of files and replaces one file by the moved one |
| Day09.ReinsertKeepsShapes | 9/main.go:149-155 | moving a file keeps the multiset of file ids and sizes |
| Day09.ReinsertKeepsLayout | 9/main.go:147-155 | moving a file into a gap that fits it keeps the files in order without overlap |
| Day09.FirstFitFrom | 9/main.go:137-147 | the index found from k on is the first whose gap takes the file, or the number of files when no gap from k on does |
| Day09.FindGap | 9/main.go:137-159 | the search returns the first gap that fits the file, with its start, or reports that none does; the index is FirstFitFrom's from 0 |
| Day09.MoveFile | 9/main.go:152-155 | the shift loop leaves the files with file i taken out and the moved file put in at index k |
| Day09.DefragStep | 9/main.go:147-157 | moving a not yet moved file keeps the invariant (files in order, same ids and sizes, each an original or left of it) and marks its id moved |
| Day09.ReinsertKeepsIds | 9/main.go:148-155 | moving a file keeps the set of ids on the disk |
| Day09.DefragSkip | 9/main.go:131-134 | an index whose id has already moved, or whose file no gap takes, is passed over with the files unchanged |
| Day09.DefragMove | 9/main.go:147-157 | an unmoved file with a fitting gap goes to the start of the first such gap, on its left; the disk keeps its layout and ids, the id is marked moved and the same index is examined next |
| Day09.DefragKeeps | 9/main.go:127-161 | from any loop state, the defragmented files are in order without overlap, keep their ids and sizes as a multiset, and each is an original file or sits left of the original with its id and size |
| Day09.DefragKeepsAll | 9/main.go:127-161 | the same facts for the whole defragmentation, started from the last file with nothing moved |
| Day09.DefragAt | 9/main.go:130-158 | one pass of the loop changes the files as Defrag's step at that index does (skip, or move into the first fitting gap and revisit the index), keeps layout and ids, and makes progress |
| Day09.DefragmentDisk | 9/main.go:127-161 | the files end as Defrag leaves them: from the last index down, each file whose id has not moved goes to the first gap on its left that takes it and its index is examined again, a moved id is never tried again, and a file no gap takes stays; they stay in order without overlap, keep their ids and sizes as a multiset, and each is an original file or sits left of the original with its id and size |
| Day09.SameShapesNonEmpty | 9/main.go:30-31 | defragmentation leaves no empty file when there was none, so computeChecksum applies to its result |
| Day10.ParseMap | 10/main.go:33-55 | the map has the input's width and height, a height for exactly the input's cells equal to the cell's digit, the height-0 cells as trailheads in reading order, and an empty cache |
| Day10.Neighbors | 10/main.go:83-95 | at most four distinct orthogonal neighbours; for an in-bounds cell, exactly its in-bounds orthogonal neighbours |
| Day10.ComputeTrailRating | 10/main.go:116-148 | the result is the rating of the cell as the recursion defines it |
| Day10.RatingCountsTrails | 10/main.go:116-148 | with an empty cache, the rating of a cell is the number of distinct hiking trails (height rising by one per orthogonal step, ending at 9) starting there |
| Day10.TrailsExactly | 10/main.go:98-102 | the trails enumerated by the recursion are exactly the sequences that are hiking trails from the cell |
| Day10.TrailLength | 10/main.go:70-78 | every hiking trail from a cell of height h has 10 - h cells |
| Day10.TrailHeight | 10/main.go:99 | the k-th cell of a trail is k higher than its start |
| Day10.NinesAreEnds | 10/main.go:68-105 | the 9s the score recursion reaches are exactly the end points of the trails from the cell |
| Day10.ComputeTrailScore | 10/main.go:68-105 | with an empty cache, the set of seen 9s grows by the 9s reachable from the cell and the result counts those not seen before |
| Day10.ScoreNeighbors | 10/main.go:97-104 | the neighbour loop adds the reachable 9s through each climbing neighbour to the seen set and counts the new ones |
| Day10.ScannedClimb | 10/main.go:99-100 | a climbing neighbour adds its newly reached 9s to the count |
| Day10.ScannedSkip | 10/main.go:99 | a neighbour that does not climb by exactly one changes nothing |
| Day10.ScoreAtMostRating | 10/main.go:57-148 | a cell's score (distinct 9s reached) is at most its rating (distinct trails) |
| Day10.ComputeTrailScores | 10/main.go:57-66 | with an empty cache, the sum is the total over the trailheads of the number of 9s reachable from each, each head starting with no 9s seen |
| Day10.ComputeTrailRatings | 10/main.go:107-114 | the sum is the total of the trailheads' ratings |
| Day10.TotalScoreAtMostRating | 10/main.go:57-114 | the part 1 answer is at most the part 2 answer |
| Day11.DigitsExactly | 11/main.go:124-132 | a positive value has d decimal digits exactly when it lies in [10^(d-1), 10^d) |
| Day11.DigitsBounds | 11/main.go:124-132 | a value is below 10 to the power of its digit count, and at least 10 to one less for positive values |
| Day11.Ord | 11/main.go:124-132 | the loop returns the number of decimal digits of the value (1 for values below 10) |
| Day11.TenToThe | 11/main.go:134-140 | the result is 10^n, and 10 for n at most 1 |
| Day11.Pow10Add | 11/main.go:134-140 | powers of ten multiply by adding exponents |
| Day11.Rule | 11/main.go:45-57 | a stone becomes two stones when it splits and one otherwise |
| Day11.SplitHalves | 11/main.go:47-53 | a stone with an even number of digits splits into a left half of exactly half the digits and a right half below 10^half, which concatenate back to the stone |
| Day11.BlinkOnceCount | 11/main.go:42-58 | one blink adds one stone per splitting stone |
| Day11.BlinkOnceAppend | 11/main.go:42-58 | blinking a row is blinking its parts and joining the results: each stone changes independently of its neighbours |
| Day11.BlinkOncePermutation | 11/main.go:67-81 | the stones after a blink, as a multiset, depend only on the multiset before it, so counting stones by value loses nothing |
| Day11.BlinksNext | 11/main.go:40-61 | n + 1 blinks are one blink after n |
| Day11.BlinkStone | 11/main.go:43-57 | one step of the inner loop replaces the stone at j by the rule's result and moves j past the stones written |
| Day11.BlinkNext | 11/main.go:42-58 | the inner loop keeps its invariant: the blinked prefix followed by the untouched rest, the cursor at the first untouched stone |
| Day11.BlinkRow | 11/main.go:42-58 | one pass of the inner loop yields the row after one blink |
| Day11.Blink | 11/main.go:37-65 | the result is the number of stones after n blinks |
| Day11.AddToMap | 11/main.go:117-122 | the key gains count, every other key keeps its count, and the key set gains the key |
| Day11.Entries | 11/main.go:86 | the map's entries are exactly its key-count pairs |
| Day11.CountStones | 11/main.go:75-81 | the map gives each value's number of occurrences in the input, a missing key counting as 0 |
| Day11.BlinkKey | 11/main.go:87-99 | one stone value adds count times the multiplicity of each value it blinks into |
| Day11.CountsStep | 11/main.go:86-100 | adding one value class to the next map keeps it describing the blink of the stones visited so far |
| Day11.BlinkRepeated | 11/main.go:86-100 | blinking count stones of one value gives count times the rule's result for each value |
| Day11.VisitedAll | 11/main.go:86-100 | once every entry is visited, the stones visited are exactly the stones the map describes |
| Day11.BlinkCounts | 11/main.go:85-102 | from a map describing a multiset of stones, one round gives the map describing the multiset after one blink |
| Day11.BlinkCountsTimes | 11/main.go:83-106 | n rounds give the map describing the stones after n blinks |
| Day11.SumCounts | 11/main.go:108-111 | the sum of the counts is the number of stones described |
| Day11.Blink2 | 11/main.go:67-115 | the result is the number of stones after n blinks, the same as part 1's |
| Day12.FindNeighbors | 12/main.go:132-149 | at most four distinct orthogonal neighbours; for a plot on the board, exactly its orthogonal neighbours on the board |
| Day12.AreaIsBoard | 12/main.go:132-149 | for a non-empty board, the plots the search can reach are exactly those inside width and height |
| Day12.NeighborsSymmetric | 12/main.go:132-149 | neighbourhood on the board is symmetric |
| Day12.SplitIn | 12/main.go:103-110 | the neighbours sorted into the region's frontier are exactly those with the region's plant, the others go to the new-region frontier |
| Day12.FenceIsOpenSides | 12/main.go:112-113 | a plot's share of the perimeter is 4 minus the number of its orthogonal neighbours inside the region |
| Day12.FencesAdd | 12/main.go:112-113 | adding a plot to a region adds 4 minus its same-plant neighbours to the perimeter |
| Day12.WalksStayInRegion | 12/main.go:84-115 | any same-plant walk from the start stays inside the region found |
| Day12.SortNeighbors | 12/main.go:103-110 | the neighbour loop counts the same-plant neighbours and appends them to the region's frontier and the others to the new-region frontier, in order |
| Day12.VisitPlot | 12/main.go:93-114 | visiting one plot keeps the search invariant, adds the plot to the region and the seen set, and keeps area and perimeter equal to the count and the fences of the plots found |
| Day12.SearchRegion | 12/main.go:81-123 | the inner search returns the region of the start: its plots are those of the start's plant walkable from it, closed under same-plant neighbours, none seen before, with area the number of plots and perimeter their fences; every different-plant neighbour ends up in the frontier |
| Day12.ExploreRegion | 12/main.go:74-129 | growing a region from an unseen frontier plot keeps the outer invariant (regions of their starts, pairwise disjoint, covering the seen plots) and shrinks the unseen part of the board |
| Day12.ExploreSkip | 12/main.go:79-82 | skipping a frontier plot already in a region keeps the outer invariant |
| Day12.ExploreFrom | 12/main.go:74-129 | one round of the outer loop on an unseen plot keeps the invariant and makes progress |
| Day12.AreaReached | 12/main.go:61-63 | a set holding (0,0) and closed under neighbours holds every plot of the board |
| Day12.ExploreDone | 12/main.go:74-129 | when the frontier is empty, every plot of the board has been seen |
| Day12.FindRegions | 12/main.go:61-130 | the regions are the regions of their starts, pairwise disjoint, and together cover the board |
| Day12.TotalAreaCovered | 12/main.go:61-130 | the areas of disjoint regions add up to the number of plots they cover |
| Day12.RectCard | 12/main.go:132-149 | a w by h board has w times h plots |
| Day12.RegionAreasFillBoard | 12/main.go:61-130 | the regions' areas add up to width times height |
| Day12.CalcTotalCost | 12/main.go:151-159 | the result is the sum of area times perimeter over the regions |
| Day12.TotalCostOfPlots | 12/main.go:151-159 | for regions found from their starts, the cost is the sum over the regions of the number of plots times the fences around them |
| Day12.Corners | 12/main.go:178-256 | one plot contributes at most 8 outer corners and at most 4 inner-corner sightings |
| Day12.CountSides | 12/main.go:161-261 | the result is the outer corners of the region's plots plus a third of their inner-corner sightings, summed over the plots in any order |
| Day12.SidesOfOne | 12/main.go:161-261 | a one-plot region's sides are that plot's outer corners plus a third of its inner-corner sightings |
| Day12.IsolatedPlotHasFourSides | 12/main.go:221-240 | a plot with no same-plant plot around it has 4 sides |
| Day12.DiagonalTwinStillFourSides | 12/main.go:221-256 | a plot whose only same-plant plot around it is its diagonal neighbour still has 4 sides: the diagonal touch adds no corner |
| Day14.Wrap | 14/main.go:85-86 | the wrapped coordinate lies in [0, n) and is the Euclidean remainder of position plus displacement, also for negative sums |
| Day14.WrapIsMod | 14/main.go:85-86 | Go's truncating remainder, shifted by n and taken again, equals the Euclidean remainder |
| Day14.AdvanceAll | 14/main.go:81-90 | advancing keeps the number of robots and their velocities and puts every robot on the board |
| Day14.AdvanceBoard | 14/main.go:81-90 | the robots are replaced in place by the robots advanced by the given number of steps |
| Day14.AdvanceCompose | 14/main.go:39-51 | advancing k steps and then m steps is advancing k + m steps, so part 2's one-step loop reaches the same states as jumps |
| Day14.WrapCompose | 14/main.go:83-86 | wrapping twice is wrapping the sum of the displacements |
| Day14.AdvanceZero | 14/main.go:81-90 | advancing robots on the board by zero steps changes nothing |
| Day14.QuadrantOf | 14/main.go:98-106 | a robot is in no quadrant exactly when it is on the middle column or the middle row |
| Day14.CountsAddUp | 14/main.go:97-107 | the four quadrant counts and the middle count add up to the number of robots |
| Day14.MiddleRobotIgnored | 14/main.go:98-106 | a robot on the middle row or column does not change the safety factor |
| Day14.ComputeSafetyFactor | 14/main.go:92-109 | the result is the product of the numbers of robots strictly inside each of the four quadrants |
| Day14.IsBoardUnique | 14/main.go:111-126 | the result is true exactly when no two robots share a position |
| Day15.Delta | 15/main.go:76-90 | each arrow gives a unit step in its own direction (up is negative y); any other character gives no step |
| Day15.OtherMoveNeverEnds | 15/main.go:76-103 | with a character that is not an arrow the scan keeps reading the robot's own tile, which is neither '.' nor '#', so it never stops |
| Day15.ScanFrom | 15/main.go:92-103 | the scan stops at the first '.' or '#' ahead of the robot, and every tile strictly between holds a box |
| Day15.Scan | 15/main.go:92-103 | the loop finds that first free-or-wall tile and reports a move exactly when it is free |
| Day15.WalkBackStep | 15/main.go:109-120 | one swap of the walk back extends the pushed stretch by one tile and moves closer to the robot, stopping exactly at the robot's tile |
| Day15.WalkBackStart | 15/main.go:108 | before any swap, nothing has been pushed |
| Day15.ShiftBack | 15/main.go:105-121 | the walk back shifts every tile from the robot up to the free tile one step forward, leaves '.' where the robot was, puts the robot one step ahead and keeps the number of tiles of each kind |
| Day15.MoveKeeps | 15/main.go:92-121 | a move keeps the warehouse walled with the robot on its only '@', moves no wall, and moves the robot by one step or not at all |
| Day15.SwapCount | 15/main.go:112 | swapping two tiles keeps the number of tiles of each kind |
| Day15.MoveRobot | 15/main.go:92-121 | one move changes the tiles and the robot as the move function says, blocked by a wall or pushing the boxes, and keeps the number of tiles of each kind |
| Day15.Pending | 15/main.go:71-73 | the moves still to run are those from the next index on |
| Day15.Run | 15/main.go:70-123 | running the moves keeps the warehouse walled with one robot and moves no wall |
| Day15.RunsStep | 15/main.go:71-73 | taking the next arrow and moving leaves the rest of the run to do |
| Day15.RunRobot | 15/main.go:70-123 | the shared tile map ends as running the pending moves from the robot leaves it, with as many tiles of each kind as before |
| Day15.GpsSumRemove | 15/main.go:136-140 | the score of a set of tiles is that of any one of them plus that of the rest, so the map's order does not matter |
| Day15.SumGps | 15/main.go:134-143 | the result is the sum of 100 y + x over the tiles showing the given character |
| Day15.ScoreBoard | 15/main.go:134-143 | the result is the sum of 100 y + x over the box tiles |
| Day15Wide.ConeAhead | 15/main.go:255-265 | every tile a vertical push from a tile reaches is that tile or lies on a row further along |
| Day15Wide.ConeClosed | 15/main.go:261-264 | what a tile in the push pushes is part of the push |
| Day15Wide.ConePartner | 15/main.go:261-264 | every pushed tile other than the first is a box half whose other half is pushed too |
| Day15Wide.ConeMovable | 15/main.go:255-269 | when a tile can move, every tile its push reaches can move |
| Day15Wide.ConeFront | 15/main.go:255-269 | when a tile can move, the tile in front of each pushed tile is free or itself pushed |
| Day15Wide.BoxHalves | 15/main.go:261-264 | a movable tile facing a box faces a '[' with its ']' on the right, both movable |
| Day15Wide.BoxCone | 15/main.go:261-264 | a movable tile facing a box pushes itself and everything both halves of the box push |
| Day15Wide.CommitSwap | 15/main.go:280 | the closing swap of a tile into the free tile ahead adds that tile to the pushed set |
| Day15Wide.CommitTileMovement | 15/main.go:271-281 | the recursion shifts every tile of the tile's push one row along, leaving '.' where nothing moved in, and keeps the number of tiles of each kind |
| Day15Wide.CommitBox | 15/main.go:273-279 | pushing both halves of a box one after the other shifts both halves' pushes |
| Day15Wide.SwapAhead | 15/main.go:280 | after the box halves are pushed, the final swap completes the tile's push |
| Day15Wide.ShiftKeepsWalls | 15/main.go:213-218 | a whole push from the robot keeps the warehouse walled and moves no wall |
| Day15Wide.ShiftMovesRobot | 15/main.go:215-218 | after a whole push the robot stands one step along on the only '@' |
| Day15Wide.ShiftKeepsBoxes | 15/main.go:213-218 | a vertical push keeps every box whole |
| Day15Wide.PushKeepsBoxes | 15/main.go:219-249 | a horizontal push keeps every box whole |
| Day15Wide.WideMoveKeeps | 15/main.go:191-250 | a move keeps the warehouse walled with one robot and whole boxes, moves no wall, and moves the robot by one step or not at all |
| Day15Wide.WideMoveRobot | 15/main.go:196-249 | one move changes the tiles and the robot as the wide move says (a vertical push of the whole cone when every tile can move, the straight push otherwise) and keeps the number of tiles of each kind |
| Day15Wide.WideRun | 15/main.go:190-253 | running the moves keeps the warehouse walled with one robot and whole boxes, and moves no wall |
| Day15Wide.WideRunsStep | 15/main.go:191-193 | taking the next arrow and moving leaves the rest of the run to do |
| Day15Wide.WideRunRobot | 15/main.go:190-253 | the shared tile map ends as running the pending moves leaves it, with as many tiles of each kind as before |
| Day15Wide.WidenedPair | 15/main.go:157-174 | each character of the narrow map becomes two tiles, '#' '#', '.' '.', '[' ']' or '@' '.', and any other character none |
| Day15Wide.RobotStep | 15/main.go:170-173 | the robot position is the doubled position of the last '@' read so far |
| Day15Wide.WideParseLine | 15/main.go:157-175 | parsing one line widens its characters and keeps the last '@' seen |
| Day15Wide.WideParseBoard | 15/main.go:145-188 | the board is twice as wide as the first line, as tall as the lines, holds the widened tiles, the robot at the doubled position of the last '@', the given moves and the first move next |
| Day15Wide.ParsedWalled | 15/main.go:145-188 | widening a walled narrow map gives a walled wide map |
| Day15Wide.ParsedRobot | 15/main.go:170-173 | widening a narrow map with one robot off the walls puts the robot on the only '@' |
| Day15Wide.ParsedBoxes | 15/main.go:167-169 | widening gives whole boxes only |
| Day15Wide.WideParsedValid | 15/main.go:145-188 | the widened board of a valid narrow map is a valid wide warehouse, so the wide run applies to it |
| Day15Wide.WideScoreBoard | 15/main.go:283-292 | the result is the sum of 100 y + x over the left halves of the boxes |
| Day16.NeighborsFrom | 16/main.go:125-139 | the loop yields, from the directions tried, exactly the steps that do not reverse the last direction and do not enter a wall, each costing 1 straight on and 1001 after a turn |
| Day16.FindNeighbors | 16/main.go:115-142 | at most four neighbours, exactly the admissible unit steps, each with its turn cost |
| Day16.Heading | 16/main.go:209-222 | a valid direction (north, east, south, west) gives its unit step |
| Day16.DirLeft | 16/main.go:231 | the direction to the left is a valid direction, (dir + 3) mod 4, the anticlockwise turn |
| Day16.DirRight | 16/main.go:232 | the direction to the right is (dir + 1) mod 4, the clockwise turn, valid for any dir from -1 on |
| Day16.TurnsUndo | 16/main.go:231-232 | for a facing in 0..3, a right turn and a left turn undo each other in either order |
| Day16.FindNeighbors2 | 16/main.go:207-238 | two or three successor states, each costing 1 (a step) or 1000 (a turn) |
| Day16.Neighbors2Spec | 16/main.go:207-238 | the successors are exactly a step ahead onto a non-wall tile at cost 1 and the two quarter turns in place at cost 1000 |
| Day16.WalkExtend | 16/main.go:93-98 | extending a priced walk by an admissible neighbour gives a walk to it costing the old cost plus the neighbour's cost |
| Day16.RelaxUpdate | 16/main.go:95-98 | lowering a tile's cost keeps every known cost the price of a walk from the start arriving from the recorded tile, and strictly improves the search measure |
| Day16.ExploredUpdate | 16/main.go:96-98 | recording a priced walk to an open tile keeps the cost map sound |
| Day16.ReachedDetails | 16/main.go:84-98 | every tile with a cost is open and reached from the start by a walk of exactly that cost, and the start costs 0 |
| Day16.CostLowered | 16/main.go:96-97 | lowering a known cost lowers the sum of the costs and discovers no tile |
| Day16.TileDiscovered | 16/main.go:96-97 | giving an open tile its first cost leaves fewer tiles undiscovered |
| Day16.Relax | 16/main.go:95-103 | relaxing one neighbour keeps the loop invariant and leaves the neighbour with a cost no greater than through the current tile |
| Day16.ExpandTile | 16/main.go:91-104 | relaxing all neighbours of the popped tile keeps the costs sound and makes the search measure no worse |
| Day16.ExpandingDone | 16/main.go:94-104 | after the neighbour loop the cost map is sound, every queued tile has a cost, and the search measure did not grow, with no new queue entries when nothing changed |
| Day16.SearchStep | 16/main.go:87-105 | one round of the search keeps the costs sound and lowers, lexicographically, the undiscovered tiles, the sum of the costs and the queue length |
| Day16.FindCheapestRoute | 16/main.go:72-108 | the result is 0 when the goal is the start, and otherwise either 0 (goal unreached) or the cost of an actual walk from the start, facing east, to the goal |
| Day16Routes.RouteFacings | 16/main.go:207-238 | every state on a route faces one of the four directions |
| Day16Routes.CostJoin | 16/main.go:186 | the cost of two joined routes is the sum of their costs |
| Day16Routes.PrefixRoute | 16/main.go:187-189 | every non-empty prefix of a route is a route |
| Day16Routes.Exchange | 16/main.go:171-173 | replacing a route's prefix by another route to the same state gives a route to the same end, costing the difference |
| Day16Routes.PrefixCost | 16/main.go:186 | a prefix costs no more than the whole route |
| Day16Routes.RouteExtend | 16/main.go:185-193 | extending a route by a successor state gives a route costing that move's price more |
| Day16Routes.Undercut | 16/main.go:171-173 | a route passing through a state already visited more cheaply is undercut by a strictly cheaper route to the same end |
| Day16Routes.GoalRouteQueued | 16/main.go:163-195 | while no goal route has been expanded, every route to the goal has a queued node no dearer than it |
| Day16Routes.PushedSpec | 16/main.go:185-194 | the nodes pushed are exactly one child per successor, with the cost raised by its price and the path extended by it |
| Day16Routes.PushNeighbors | 16/main.go:185-194 | the queue gains exactly the children of the node |
| Day16Routes.MarkPath | 16/main.go:179-181 | the marked tiles become the old ones plus every tile of the path |
| Day16Routes.SkipKeeps | 16/main.go:171-173 | skipping a node whose state was visited more cheaply keeps the search invariant |
| Day16Routes.ExpandVisited | 16/main.go:175 | recording the node's cost for its state keeps every visited cost the cost of a route to that state |
| Day16Routes.ExpandCovered | 16/main.go:175-194 | expanding a node keeps every route covered by a queued node or an expanded path |
| Day16Routes.ExpandAtGoal | 16/main.go:177-182 | the first goal node popped is a cheapest route; its cost becomes the bound and its tiles are marked |
| Day16Routes.ExpandElsewhere | 16/main.go:184-194 | expanding a node away from the goal keeps the bound, the best route and the marks |
| Day16Routes.CheapestExpanded | 16/main.go:163-195 | once every queued node costs more than the bound, every cheapest route has been expanded |
| Day16Routes.Finish | 16/main.go:167-169 | when the popped node costs more than the bound, the marked tiles are exactly the tiles on cheapest routes |
| Day16Routes.Round | 16/main.go:164-194 | one round either stops with exactly the tiles of cheapest routes marked or keeps the search invariant |
| Day16Routes.StartSearching | 16/main.go:151-161 | the initial queue holding the start facing east satisfies the search invariant |
| Day16Routes.FindAllCheapestRoutes | 16/main.go:150-200 | a returned count is the number of tiles lying on some cheapest route from the start, facing east, to the goal |
| Day16Routes.DirIndex | 16/main.go:16-21 | every unit step has a direction index, north, east, south or west |
| Day16Routes.QuarterTurn | 16/main.go:133-136 | a direction change that is not a reversal is a quarter turn of the state |
| Day16Routes.WalkAsRoute | 16/main.go:115-142 | every part 1 walk corresponds to a part 2 route to the same tile and direction with the same cost (a turn and a step for 1001) |
| Day16Routes.WalkToGoalIsRoute | 16/main.go:72-108 | every part 1 walk to the goal gives a goal route of the same cost, so part 1's answers are never below the cheapest route |
| Day17.XorUndo | 17/main.go:137 | xor-ing twice with the same value gives the value back |
| Day17.XorSelf | 17/main.go:145 | a value xor itself is 0 |
| Day17.XorZero | 17/main.go:137 | xor with 0 changes nothing |
| Day17.XorHalves | 17/main.go:137 | xor works bit by bit: the low bit is the sum of the low bits mod 2, and the rest is the xor of the halves |
| Day17.XorBelow | 17/main.go:137 | the xor of two values below 2^k is below 2^k |
| Day17.XorBelow8 | 17/main.go:137 | the xor of two values below 8 is below 8, so bxl with a 3-bit operand keeps a 3-bit b 3-bit |
| Day17.Pow2Add | 17/main.go:161-164 | powers of two multiply by adding exponents |
| Day17.DivDiv | 17/main.go:161-164 | dividing by m and then by n is dividing by m times n |
| Day17.ShiftCompose | 17/main.go:161-164 | two divisions by powers of two are one division by the power of the summed exponents, so successive adv instructions shift a right |
| Day17.ComboOperand | 17/main.go:166-178 | operands 4, 5 and 6 read registers a, b and c; every other operand is itself |
| Day17.ExecFrame | 17/main.go:131-155 | one instruction changes a only for adv, b only for bxl, bst, bxc and bdv, c only for cdv; the dv instructions divide a by 2 to the combo operand; jnz jumps to the operand when a is not 0 and otherwise pc advances by 2; only out writes, one value below 8 |
| Day17.CPU.constructor | 17/main.go:118-124 | a new CPU holds the given registers and program with pc 0 |
| Day17.CPU.Dv | 17/main.go:161-164 | dv writes a divided by 2 to the combo operand into the destination register and changes nothing else |
| Day17.Step | 17/main.go:131-155 | one pass of the loop body changes the registers and pc and writes output exactly as the instruction semantics say, and keeps the program |
| Day17.RunStep | 17/main.go:130-156 | running from a state is executing one instruction and running from the next state with the output so far extended |
| Day17.RunCPUToHalt | 17/main.go:127-159 | the loop ends in the outcome the semantics give for the starting registers: halted past the end, crashed reading an operand past the end or jumping before the start, with the output written and the final registers |
| Day17.RunEnds | 17/main.go:127-159 | a halted run ends with pc past the program, a crashed one with pc negative or on the last cell; every output is below 8 and there is at most one per instruction |
| Day17.RunFuelMonotone | 17/main.go:127-159 | a run that finishes with some instruction budget finishes the same way with any larger one |
| Day17.NoJumpsEnd | 17/main.go:130-155 | a program without jnz ends within half its length in instructions |
| Day18.Board.constructor | 18/main.go:51-68 | a new board is arenaSize by arenaSize with the given bytes and no corrupted tile |
| Day18.Board.SimulateByte | 18/main.go:70-72 | simulating byte i adds exactly that byte's position to the corrupted tiles and changes nothing else |
| Day18.FindNeighbors | 18/main.go:126-152 | at most four neighbours, exactly the orthogonal steps that stay inside the arena's edges and land on a tile that is not corrupted |
| Day18.NeighborsInArena | 18/main.go:126-152 | from a tile inside the arena, the neighbours are exactly the adjacent tiles inside the arena that are not corrupted |
| Day18.PathExtend | 18/main.go:100-105 | a path from (0, 0) extended by a neighbour of its end is a path one longer |
| Day18.PathInArena | 18/main.go:126-152 | every tile of a path lies in the arena and every step is to an adjacent uncorrupted tile |
| Day18.CorruptionOnlyBlocks | 18/main.go:70-72 | a path that avoids more corrupted tiles also avoids fewer: adding bytes only removes paths |
| Day18.BlockedStaysBlocked | 18/main.go:37-42 | a tile that cannot be reached stays unreachable after another byte falls, so the first blocking byte is well defined |
| Day18.ChainPath | 18/main.go:113-119 | following cameFrom back from an explored tile gives a path from (0, 0) with as many steps as the tile's BFS distance |
| Day18.Escape | 18/main.go:90-107 | any path that leaves the explored tiles passes through a queued tile closer than the path's length |
| Day18.Exhausted | 18/main.go:109-111 | when the queue empties without meeting the goal, no path reaches the goal |
| Day18.StartBfs | 18/main.go:77-86 | the initial queue and explored set, holding only (0, 0) at distance 0, satisfy the BFS invariant |
| Day18.Pop | 18/main.go:91-92 | taking the head of the queue keeps the invariant, with the head's distance as the current level |
| Day18.Discover | 18/main.go:101-105 | marking a new neighbour explored, recording where it came from and queueing it keeps the invariant at distance one more, and explores one more tile |
| Day18.DiscoverMinimal | 18/main.go:101-105 | the new neighbour's distance is the fewest steps to it |
| Day18.Seal | 18/main.go:99-106 | once all neighbours of the current tile are explored, the invariant holds without it |
| Day18.VisitNeighbor | 18/main.go:101-105 | one neighbour keeps the invariant, ends explored, and the unexplored count goes down by what the queue grows |
| Day18.ExpandTile | 18/main.go:99-106 | the neighbour loop keeps the BFS invariant and the unexplored tiles never grow |
| Day18.CountPath | 18/main.go:113-123 | the back-tracking loop counts the goal's BFS distance, the number of tiles on the path other than the start |
| Day18.FindShortestPath | 18/main.go:74-124 | the goal is reported reachable exactly when some path from (0, 0) reaches it; then the length is the fewest steps to it, and otherwise -1; every queued tile is reachable and none is queued twice |
| Day19.MatchesSpec | 19/main.go:150-165 | the match list holds exactly the lengths k in 1..n whose prefix is a towel pattern, in increasing order |
| Day19.PossibleIffWays | 19/main.go:87-129 | a design can be made exactly when it can be made in at least one way |
| Day19.CountSplits | 19/main.go:109-129 | the counted ways equal the number of distinct splits the recursion enumerates |
| Day19.SplitsSound | 19/main.go:96-103 | every enumerated split is a sequence of non-empty towel patterns that concatenates to the design |
| Day19.SplitsComplete | 19/main.go:96-103 | every sequence of non-empty towel patterns that concatenates to the design is enumerated |
| Day19.WaysCountsSplits | 19/main.go:109-129 | the enumerated splits are exactly the ways to write the design as towel patterns, and the count is their number |
| Day19.CardPrepend | 19/main.go:118-124 | putting the same first pattern before distinct splits keeps them distinct |
| Day19.Trie.constructor | 19/main.go:16-20 | a new trie holds only the root and no pattern |
| Day19.Trie.Insert | 19/main.go:54-64 | inserting a pattern adds it to the patterns held, leaves a terminal node of value its length at its end, and adds exactly the nodes along its prefixes |
| Day19.Trie.PrefixIn | 19/main.go:55-61 | every prefix of a stored word is a node: the trie is closed under parents |
| Day19.Trie.FindAllMatches | 19/main.go:150-165 | the walk returns, in increasing order, every length whose prefix of the design is a towel pattern |
| Day19.Trie.NoLongerMatches | 19/main.go:155-157 | once the walk falls off the trie, no longer prefix is a pattern, so stopping early loses nothing |
| Day19.BuildTrie | 19/main.go:51-64 | the trie built holds exactly the given towel patterns |
| Day19.AnyOverMatches | 19/main.go:96-103 | trying the suffix after each match is the same as asking whether the design can be made |
| Day19.SumOverMatches | 19/main.go:118-125 | summing the counts of the suffixes after each match counts the ways to make the design |
| Day19.IsSubpatternPossible | 19/main.go:87-107 | the result says whether the design is a concatenation of towel patterns (the empty design is), and a cache of correct answers stays correct |
| Day19.CountSubpatterns | 19/main.go:109-129 | the result is the number of ways to make the design (1 for the empty design), and a cache of correct counts stays correct |
| Day19.IsPatternPossible | 19/main.go:69-80 | the result says whether the design can be made, which is the case exactly when it can be made in some way |
| Day19.CountPossiblePatterns | 19/main.go:82-85 | the result is the number of distinct splits of the design into towel patterns |
| MinHeap.LeastExists | 16/main.go:88 | a non-empty queue always has an item of least priority to pop |
| MinHeap.PriorityQueueAsc.constructor | 16/main.go:73 | a new queue is empty |
| MinHeap.PriorityQueueAsc.Push | 16/main.go:74-77 | pushing adds exactly the item to the queue |
| MinHeap.PriorityQueueAsc.Pop | 16/main.go:88 | popping a non-empty queue removes and returns one item of least priority |
| Common.DigitValue | 10/main.go:41 | the value of a digit character is in 0..9 |
| Common.GoRem | 14/main.go:85-86 | Go's remainder takes the sign of the dividend, has magnitude below the divisor, and differs from the dividend by a multiple of it |
| Common.ModUnique | 11/main.go:49-50 | a quotient and remainder in [0, b) that rebuild x are x / b and x % b |

## Left out

- Reading input files and splitting text into lines and fields (`lib/io.go`) are not modelled. Every day starts from already-split lines or already-parsed numbers.
- `strconv.Atoi` and the regular-expression parsers of days 14 and 17 are not modelled. Integers are given parsed. Day 11's `parseStones` and the narrow `parseBoard`s of days 12, 15 and 16 are also not modelled: their tile maps are given as maps.
- Every `main` function, all printing and the debug printers are left out: `printBoard`, `printDisk`, `printTrie`, `findLongestMatch` (never called) and the `Printf` of 9/main.go:120.
- The time measurements of day 11 are left out.
- Days 3 and 13 are left out. Day 3's behaviour sits entirely inside Go's regular-expression library. Day 13 is floating-point arithmetic with a rounding tolerance, plus a priority-queue search that `main` never calls.
- The base-8 digit search of 17/main.go:43-68 is a heuristic that can panic, and is left out.
- Go's 64-bit integer overflow is not modelled: integers are unbounded.
- Where the Go code ranges over a map, the model visits the entries in an arbitrary order. No result depends on that order.
- The library priority queue and `io.PowInt` are not part of this model. The queue is modelled as a multiset whose `Pop` returns an item of least priority. `PowInt` is modelled as exponentiation, `Pow2` in day 17.
- Bytes of Go strings are modelled as characters.
- The day 19 trie stores each node under the letters that lead to it, instead of linking node objects. Aliasing between nodes is not modelled; the trie is a tree, so nothing is lost. The memo caches are passed in and returned rather than shared.
- Day05.FixInvalidUpdate: the repair loop runs with an iteration budget (`fuel`) and returns `None` when the budget runs out, because cyclic rules make the Go loop run forever. The repaired update is claimed to pass the check only for updates with distinct pages; with repeated pages the order map no longer gives each page's index after a swap.
- Day05.ComputeUpdates: updates must be non-empty, as the Go code indexes the middle page. The sum of repaired middles is `None` when a repair runs out of budget.
- Day16Routes.FindAllCheapestRoutes: it runs with an iteration budget and returns `None` when the budget runs out. Termination of the Go loop is not otherwise modelled.
- Day17.RunCPUToHalt: it runs with an instruction budget and reports `OutOfFuel` when the budget runs out, because a `jnz` loop may never halt.
- Day17.CPU.constructor: registers are taken as non-negative, since only parsing could make them negative.
- Day16.FindCheapestRoute: the part 1 answer is not claimed to be minimal. The search records costs per tile, not per tile and facing, so the contract only says the answer is the price of a real walk to the goal, or 0.
- Day04.DoXmasWordSearch and Day04.DoXDashMasWordSearch require a rectangular grid, because the Go code indexes neighbouring lines by the first line's width.
- Day07.FindValidEquations requires at least one operand per equation, because the Go code starts from `operands[0]`.
- Day08.CountAntinodes requires distinct antenna positions for part 2. Two antennae on one position give a zero step, and the Go walk would then never end.
- Day06.TraceGuardPath requires that the guard eventually leaves the board. The Go loop runs forever otherwise.
- Day09.ComputeCompactedChecksum requires a disk with a free block, files in order with none empty, and the first file at 0. On the disk "1" the Go loop indexes past its only file (Day09.SingleFileHasNoGap).
- Day09.ComputeChecksum requires files in order and none empty. The parser gives that exactly when no file digit is 0 (Day09.ParsedNonEmpty), and the defragmenter keeps it (Day09.SameShapesNonEmpty). For a file of size 0 the Go loop never moves past it, and the model does not describe that result.
- Day10.ComputeTrailScore and Day10.ComputeTrailScores state their result for an empty trail cache only. That is the only cache the Go code ever creates: it never writes to the cache.
- Day15.RunRobot and Day15Wide.WideRunRobot require every pending move to be an arrow (Day15.OtherMoveNeverEnds shows that any other character makes the Go scan loop forever). They also require a warehouse walled all round with exactly one robot.
- Day16.FindCheapestRoute requires every open tile to have all four neighbours on the map, as a maze walled all round does. This keeps the search finite.

## Findings

| source | as written | input that shows it | evidently intended | confidence | as-written member | corrected member |
|---|---|---|---|---|---|---|
| 2/main.go:54-62 | `isReportSafe` reads `levels[1]` (2/main.go:71), and the tolerance loop passes it a report with one level deleted, so a two-level report reaches it with one level and the index is out of range | the report "5 5": it is unsafe, and deleting either level leaves one level, which panics | a report of fewer than two levels is safe, so "5 5" counts as safe with one level removed | not executed | Day02.TolerableAsWrittenFailsOnTwoEqualLevels | Day02.IsReportSafe |
| 2/main.go:34-51 | both counting loops hand every parsed report straight to `isReportSafe`, which reads `levels[1]` (2/main.go:71) before looking at the length | the one-level report "7" (or an empty line): it has no step that could be wrong, yet the index is out of range | a report of fewer than two levels is safe and is counted in both parts | not executed | Day02.OneLevelReportFailsAsWritten | Day02.IsReportSafe |
