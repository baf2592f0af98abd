# RA* grid planner and its experiment harness, modelled in Dafny

RA* ("runahead A*") is an A* planner for a rectangular robot on a 2-D grid. It overlaps the
collision checks of the cells it is about to expand with the search itself. It runs each
check on a thread pool and speculatively submits checks for cells further along the direction
of the last move. This project models the integer, string and sequence logic around the
search:

- **Map reading** (`readMap`). A file has a `height N` line, a `width N` line and the column
  line `X Y Length Width`, then one obstacle rectangle per line. `MapFile` gives the meaning of
  a file as its sequence of lines. `Planner.Planner.ReadMap` is the procedure that sets the
  planner's `mapX`, `mapY` and `obstacles` fields.
- **Feasibility and collision** (`isFeasible`, `isFree`). These are methods of the `Planner`
  class with loops and early returns. They are proved equal to closed-form predicates.
- **Direction table** (`dX`/`dY`, `getOuterDirs`). `Directions` holds the eight moves and,
  for each move, the "outer" directions that keep its non-zero step.
- **Speculation walk** (the run-ahead block after a node's neighbours are submitted). This is
  `Planner.Planner.Speculate` and its helpers. Submitting a collision check to the pool is
  modelled as appending the cell to a list. The walk is proved equal to a prefix of a
  declarative enumeration, `WalkTargets`.
- **Path reconstruction**. `Path.Node` is the search node. `Path.ReconstructPath` walks the
  parent links, drops the start's `-1` and reverses an array in place.
- **`containerToString` and `Rectangle`** from the utility header (`Utils`).
- **The experiment harness** `replicate.py`:
  - `ExecTime` models the `execTime:` log parser.
  - `Sweep` models the map-file set, the build steps, the command pair per thread count, the
    two time series, the `normPerf` ratios and the plot's file name.
  - Running programs, globbing, checking that the binary exists, `os.path.basename` and
    `float()` are fields of an `Environment` value.
- **Decimal text** (`Decimal`). This covers `std::to_string`/`str` for integers, and the
  reading done by `std::stoi` and `istream >> int`. Both readers skip leading white space,
  take an optional sign and at least one digit, and stop at the first non-digit.

The grids the source keeps as global arrays (`visited`, `specScoreboard`) are `array2<bool>`
fields of the `Planner` class, allocated at the fixed `MAX_Y` by `MAX_X` size. The globals
`mapX`, `mapY` and `obstacles` are fields of the same class. `robotLength` and `robotWidth`
are never reassigned, so they are module constants.

Two shapes in the planner differ, and the model keeps them apart:

- `isFeasible` tests the cells `x..x+10` by `y..y+4` with both bounds included, which is
  11 by 5 cells.
- `isFree` tests the half-open body `[x, x+10)` by `[y, y+4)`, which is 10 by 4 cells.

`Planner.FootprintOnMap` and `Planner.Overlaps` state each shape as the code has it.

## Model

| member | source | states |
|---|---|---|
| Decimal.DecimalString | utils.h:52 | `std::to_string` and `str` of an integer, never empty; its characters are stated by Decimal.DecimalStringChars and its value by Decimal.NatDigitsValue |
| Decimal.DigitsEnd | xyplan.cpp:289 | the run of digits from i ends at the first position that is not a digit: every character before it is a digit, and the one at it (if any) is not |
| Decimal.ScanDigits | xyplan.cpp:289 | reading digits fails exactly when no digit is at the start; a success consumes only digits and stops right after the last one |
| Decimal.ScanNumber | xyplan.cpp:275 | after an optional `-` or `+`, reading fails exactly when no digit follows; a success ends right after a digit and before a non-digit |
| Decimal.ScanInt | xyplan.cpp:275 | `stoi` and `>>`: a successful read consumes at least one character and ends right after a digit and before a non-digit or the end of the text |
| Decimal.DecimalStringChars | utils.h:52 | a rendered integer consists of digits, except a leading minus sign, which is present exactly for negative values |
| Decimal.NatDigitsValue | utils.h:52 | the digits rendered for n have the value n |
| Decimal.ScanIntSkipsSpaces | xyplan.cpp:275 | reading an integer skips the leading white space and then reads from the first other character |
| Decimal.ScanIntReadsDecimal | xyplan.cpp:275 | white space, then the rendering of n, then a non-digit or the end of the text, reads back as n, ending just after the rendering |
| Decimal.DigitsReadBack | xyplan.cpp:289 | the digits of m followed by a non-digit read back as m |
| Utils.Rectangle.constructor | utils.h:73-78 | the rectangle stores x, y, l and w unchanged |
| Utils.Join | utils.h:51-57 | the elements' renderings with single spaces between them; Utils.JoinLength gives its length and Utils.SpacedIsJoinPlusSpace relates it to the loop's text |
| Utils.JoinLength | utils.h:50-57 | the elements joined by single spaces are as long as their renderings plus one separator between each two |
| Utils.SpacedIsJoinPlusSpace | utils.h:51-54 | the text the loop builds is the spaced join followed by one trailing space |
| Utils.ContainerToString | utils.h:49-58 | a non-empty container gives `<`, the elements' renderings joined by single spaces in order, and `>`, with no trailing space; one element e gives `<e>`; an empty container gives `>`, because `pop_back` removes the `<`; the length is 2 + the renderings' total length + (n - 1) |
| Directions.OffsetIsUnitStep | xyplan.cpp:149-150 | every one of the eight moves changes each coordinate by at most 1 and moves at least one of them |
| Directions.OuterDirs | xyplan.cpp:325-345 | the table has an entry exactly for the directions 0..7 (any other input panics), and every listed direction is in 0..7 |
| Directions.OuterDirsShape | xyplan.cpp:325-343 | every entry is strictly ascending and contains its own direction; it has five directions for 0, 2, 5 and 7 and three for 1, 3, 4 and 6 |
| Directions.OuterDirsAreOutward | xyplan.cpp:325-343 | the entry for d is exactly the set of directions e that keep d's non-zero x step or d's non-zero y step |
| MapFile.IndexOfSpace | xyplan.cpp:272 | `find(' ')` gives the first space at or after the start, or none when there is no space |
| MapFile.HeaderValue | xyplan.cpp:272-275 | an accepted `key value` line starts with its key, which has no space, and then a space |
| MapFile.ScanInts | xyplan.cpp:289 | a successful read of n integers yields exactly n values |
| MapFile.ParseRow | xyplan.cpp:288-289 | a line gives an obstacle exactly when four integers can be read from it in a row, and the obstacle's x, y, length and width are those four in that order |
| MapFile.ObstacleRows | xyplan.cpp:287-291 | there are never more obstacle rows than lines; MapFile.ObstacleRowsParse says which |
| MapFile.ObstacleRowsParse | xyplan.cpp:287-291 | obstacle row i is what line i parses to, and the line after the last row, if there is one, does not parse |
| MapFile.LinesAfterStopIgnored | xyplan.cpp:287-291 | lines after the first line that is not four integers never change the obstacles read |
| MapFile.ParseMap | xyplan.cpp:264-294 | the height line is the failing one exactly when the file is empty or its first line is not `height <int>`; an accepted file has its column line third and at most one obstacle per remaining line |
| MapFile.ParseMapAccepts | xyplan.cpp:271-284 | a file is accepted exactly when its first three lines are `height <int>`, `width <int>` and `X Y Length Width`; the height then comes from the first line, the width from the second and the obstacles from the rest |
| MapFile.ScanIntsReadsJoin | xyplan.cpp:289 | numbers written with single spaces between them read back as those numbers |
| MapFile.ParseRowReadsRender | xyplan.cpp:288-289 | an obstacle line written as four numbers reads back as that obstacle |
| MapFile.HeaderValueReadsRender | xyplan.cpp:272-275 | a `key value` line reads back as the value under its key |
| MapFile.ObstacleRowsReadRender | xyplan.cpp:287-291 | written obstacle lines read back as the same obstacles in the same order |
| MapFile.ParseMapRoundTrip | xyplan.cpp:264-294 | a file written from a height, a width and obstacles reads back as exactly those |
| Planner.FootprintOnMapIsInsideMap | xyplan.cpp:296-309 | the footprint of (robotLength+1) by (robotWidth+1) cells is on the map exactly when 0 <= x, x + robotLength < mapX, 0 <= y and y + robotWidth < mapY |
| Planner.OverlapsIsSharedCell | xyplan.cpp:311-323 | for a rectangle with positive sides, the four-comparison test holds exactly when some cell lies both in the rectangle and under the robot's half-open body |
| Planner.FreeAppend | xyplan.cpp:311-323 | with no obstacles every placement is free; appending an obstacle keeps exactly the free placements it does not overlap, so it can only turn free into blocked |
| Planner.StepTargets | xyplan.cpp:215-222 | the cells one step of the walk would submit with an unlimited budget; Planner.StepTargetsSound and Planner.StepTargetsGrow state their properties |
| Planner.WalkTargets | xyplan.cpp:211-223 | every cell the walk would submit with an unlimited budget, in walk order; Planner.WalkTargetsSound states their properties and Planner.Planner.WalkAhead takes its first budget cells |
| Planner.StepTargetsSound | xyplan.cpp:215-222 | every cell one walk step submits is feasible, unvisited, and one outer direction away from the point reached |
| Planner.StepTargetsGrow | xyplan.cpp:215-222 | looking at more outer directions only adds cells at the end of the step's submissions |
| Planner.StepBudgetSpent | xyplan.cpp:221 | when the budget runs out within a step, the submissions are exactly a prefix of the step's cells |
| Planner.WalkTargetsSound | xyplan.cpp:211-223 | every cell of the walk is feasible, unvisited, and one outer direction away from a point 1 or more steps along the preceding move from the expanded node |
| Planner.TakeAcrossStep | xyplan.cpp:211-223 | after each step the submissions are either a prefix of the whole walk with budget left, or exactly its first budget cells |
| Planner.Planner.constructor | xyplan.cpp:129-136 | a new planner has an empty map, no obstacles, and the visited grid and scoreboard cleared |
| Planner.Planner.ReadMap | xyplan.cpp:264-294 | it succeeds exactly when the file's meaning is accepted; then mapY is the height, mapX the width, and one new rectangle per obstacle row is appended after the old obstacles, in file order; each failure names the header line that fails, leaves the obstacles unchanged and leaves mapY and mapX as read so far |
| Planner.Planner.AppendObstacles | xyplan.cpp:286-291 | one new rectangle per leading parsable line, built from that line's four numbers, is appended in order after the old obstacles |
| Planner.Planner.IsFeasible | xyplan.cpp:296-309 | the result is true exactly when every footprint cell is on the map, which is exactly the four corner bounds |
| Planner.Planner.IsFree | xyplan.cpp:311-323 | the result is true exactly when no obstacle passes all four comparisons |
| Planner.Planner.Speculate | xyplan.cpp:206-223 | it submits nothing unless speculation is on, checks are outstanding and the node has a parent; otherwise it submits the first numThreads - outstandingThread cells of the walk along the node's direction; at most that many cells are submitted, each feasible, unvisited, on that ray and marked on the scoreboard, and no other scoreboard cell changes |
| Planner.Planner.WalkAhead | xyplan.cpp:207-223 | the while loop submits the first budget cells of the walk and marks exactly those on the scoreboard |
| Planner.Planner.SubmitStep | xyplan.cpp:215-222 | the loop over the outer directions submits the step's cells in table order until the budget runs out, and marks exactly those |
| Planner.Planner.TrySubmit | xyplan.cpp:216-220 | one outer direction submits its cell and marks it exactly when the robot fits there and the cell was not visited |
| Path.Node.constructor | xyplan.cpp:111-118 | the node stores its cell, parent and direction; it is well formed exactly when a node without a parent has direction -1 and a node with one has a well-formed parent and a direction in 0..7 |
| Path.PathDirs | xyplan.cpp:252-261 | the moves from the start to a node in start-to-end order; Path.PathShape gives its length and entries |
| Path.ChainDirs | xyplan.cpp:252-257 | what the parent walk collects, never empty; Path.ChainIsReversedPath relates it to the path |
| Path.PathShape | xyplan.cpp:252-261 | the path has one move per parent link, each in 0..7, so the start's -1 never appears |
| Path.ChainIsReversedPath | xyplan.cpp:252-257 | walking the parent links collects the path backwards, followed by the start's -1 |
| Path.ReversedTwice | xyplan.cpp:260 | reversing twice gives back the original sequence |
| Path.ReverseInPlace | xyplan.cpp:260 | `std::reverse` leaves the array holding its old contents in reverse order |
| Path.CollectChain | xyplan.cpp:252-257 | the `push_back` loop collects every direction on the chain, the node's first and the start's last |
| Path.ReconstructPath | xyplan.cpp:181-190 | the result is the moves from the start to the node in start-to-end order; its length is the number of parent links and every entry is in 0..7 |
| ExecTime.DotsEnd | replicate.py:21 | the run of dots from k ends at the first position that is not a dot: every character before it is a dot, and the one at it (if any) is not |
| ExecTime.DotsEndAt | replicate.py:21 | a run of dots that stops at j is the one the greedy `\.*` takes |
| ExecTime.NumberToken | replicate.py:21 | the group is the text right after the consumed character, and it stops before a non-digit or the end of the line; ExecTime.NumberTokenReadsTime says which text it is |
| ExecTime.NumberTokenReadsTime | replicate.py:21 | for every line and position: digits, one dot and digits, followed by a non-digit or the end, are taken whole by the greedy `\d*\.*\d*` |
| ExecTime.LineReadsTime | replicate.py:21 | every line `execTime:` + one character other than a line feed + `<digits>.<digits>` + text not starting with a digit yields exactly `<digits>.<digits>` |
| ExecTime.SearchFrom | replicate.py:21 | the search from a position finds nothing exactly when the pattern matches at no later position |
| ExecTime.Search | replicate.py:21 | `re.search` over a line finds nothing exactly when the pattern matches nowhere in it |
| ExecTime.SearchFromLeftmost | replicate.py:21 | a found group is that of the leftmost match |
| ExecTime.TokenShape | replicate.py:21 | the group is a run of digits, then a run of dots, then a run of digits |
| ExecTime.FirstDigitSwallowed | replicate.py:21 | the one character after the colon is always consumed, so `execTime:12` yields `2` |
| ExecTime.SpacedTimeRead | replicate.py:21 | `execTime: 12.34` yields `12.34` |
| ExecTime.FirstExecTime | replicate.py:20-25 | there is no time exactly when no line matches; a time found is the group of some line |
| ExecTime.ExtractExecTime | replicate.py:19-25 | the result comes from the first line, in order, on which the pattern matches; when no line matches, it fails with "Could not extract the execution time" |
| Sweep.ThreadAxis | replicate.py:45 | the thread counts, four of them; Sweep.ThreadAxisValues gives their values |
| Sweep.Words | replicate.py:57 | `shlex.split` of text without quotes or backslashes: every word is non-empty and has no white space; Sweep.WordsSnoc and Sweep.WordsOfWord say which words |
| Sweep.BaselineCommand | replicate.py:56 | the f-string command without speculation; Sweep.BaselineWords gives its words |
| Sweep.SpeculativeCommand | replicate.py:63 | the baseline command with ` --speculation` appended; Sweep.SpeculativeAddsOneWord gives its words |
| Sweep.Signature | replicate.py:52 | the experiment signature `map:<basename> numTests:10 weight:<w>`; Sweep.FileNameShape states what the file name keeps of it |
| Sweep.ReplaceSpaces | replicate.py:78 | `replace(' ', '_')` keeps the length, leaves no space and keeps every other character in place |
| Sweep.RemoveColons | replicate.py:78 | `replace(':', '')` leaves no colon, never lengthens the text and keeps every other character as often as it occurred |
| Sweep.OutputFileName | replicate.py:78 | the plot's file name from the signature, through Sweep.ReplaceSpaces then Sweep.RemoveColons; Sweep.FileNameShape states its shape |
| Sweep.TrialTime | replicate.py:56-60 | a command yields a time exactly when its run exits with status 0, its output has a matching line and the first match converts to a number, which is then the time; otherwise the failure is one of those three; Sweep.RunTrial computes it step by step |
| Sweep.Series | replicate.py:54-68 | a finished sweep has exactly one baseline and one speculative time per thread count looked at; Sweep.SeriesAligned ties each to its run |
| Sweep.GroupReport | replicate.py:49-79 | one experiment's report or its first failure; Sweep.GroupReportShape states the report's shape |
| Sweep.ThreadAxisValues | replicate.py:45 | the thread axis is exactly [2, 4, 8, 16]: length 4, strictly increasing, every entry a power of two |
| Sweep.WordsOfWord | replicate.py:57 | a command that is one word with no white space splits into just that word |
| Sweep.WordsSnoc | replicate.py:57 | appending a space and a word to a command appends that word to its split |
| Sweep.TestsOption | replicate.py:17 | the number of tests renders as `10` |
| Sweep.BaselineWords | replicate.py:56-57 | for a map path without white space, quotes or backslashes, the baseline command splits into the program, `--map=<file>`, `--num-tests=10`, `--weight=<w>` and `--threads=<t>`, in that order |
| Sweep.SpeculativeAddsOneWord | replicate.py:63-64 | the speculative command's words are the baseline command's words, unchanged and in order, followed by the one word `--speculation` |
| Sweep.MakeWords | replicate.py:35-39 | the two build commands split into `make` and their target |
| Sweep.SeriesAligned | replicate.py:49-68 | a finished sweep has one baseline and one speculative time per thread count, aligned by index, each the time of the run with that count |
| Sweep.SeriesFailureStays | replicate.py:57-65 | once a run fails, the sweep's outcome is that failure |
| Sweep.BaselineFailureWins | replicate.py:57-58 | a failing baseline run stops the sweep before its speculative run |
| Sweep.NormPerf | replicate.py:70 | the ratios exist exactly when no speculative time within the zip is zero; there are as many as the shorter series, and ratio k is baseline k over speculative k |
| Sweep.RatioAboveOneIsSpeedup | replicate.py:70 | for a positive speculative time, a ratio above 1 means exactly that the speculative run was faster |
| Sweep.ReplaceThenRemoveIsSanitized | replicate.py:78 | replacing spaces and then removing colons is the same as one pass that does both |
| Sweep.SanitizedHasNoSpaceOrColon | replicate.py:78 | the sanitised signature has no space and no colon |
| Sweep.FileNameShape | replicate.py:78 | the file name is `rastar_perf_`, the sanitised signature and `.png`, and contains no space or colon |
| Sweep.GroupReportShape | replicate.py:49-78 | a finished experiment has one time per thread count in each series and one ratio per thread count, baseline over speculative, each time that of the corresponding run; the report's title is the signature of the map's base name and the weight, and its file name is derived from that signature |
| Sweep.RunTrial | replicate.py:56-60 | running a command fails on a non-zero status, then on a missing time, then on a token that is not a number, and otherwise yields the time; it is the executable form of Sweep.TrialTime, which it equals, not a second behaviour |
| Sweep.RunGroup | replicate.py:49-70 | the loop over the thread axis runs baseline and then speculative for each count, appending to the series, and ends with the ratios; the result is the experiment's report or its first failure |
| Sweep.CollectInputMaps | replicate.py:28-31 | a path is in the set exactly when some map pattern expands to it |
| Sweep.RunMap | replicate.py:48-68 | one report per weight, in order, each that weight's experiment; on failure, the failure of one of the weights |
| Sweep.AppendTraced | replicate.py:47-68 | adding one map's reports keeps every report traced to a map and a weight |
| Sweep.AppendReported | replicate.py:47-68 | adding one map's reports keeps the earlier maps reported and reports the new map for every weight |
| Sweep.Replicate | replicate.py:28-68 | a failed clean, then a failed build, then a missing binary, then an empty map set stop the harness in that order; a successful run follows a passing build and has one report per map and weight, every report from one of the experiments and every map reported for every weight; once the startup checks pass and some map exists, a failure is the failure of an experiment on one of the maps with one of the weights, so when every such experiment succeeds the harness succeeds |

## Left out

- The A* search loop of `plan` (xyplan.cpp:138-246) is not part of this model. Its costs and
  heuristic are floating point with `sqrt`, it orders nodes with a priority queue on float
  priorities, and it stores float costs into an `int32_t` grid.
- The thread pool, futures and `specFutures` are concurrency. A submitted collision check is
  the cell appended to `submitted`. The number of outstanding neighbour checks comes from the
  search loop, so it is a parameter of `Speculate`.
- Timing with `high_resolution_clock` and the `execTime` accumulator are wall-clock floats.
- `main` is not part of this model: its argument parsing goes through `args.h`, which is not
  part of this model, and it samples start and goal cells with `rand()`.
- The `g` and `f` fields of the search node are floats.
- The checks of `readMap` (xyplan.cpp:266-284) are C `assert`s, which the model treats as
  always enabled, so every rejected header is an error. A build with `NDEBUG` defined skips
  them and reads such a file anyway; that behaviour is not modelled.
- `readMap` opens a file; the model takes the file's lines. `std::stoi` throwing on a value
  beyond 32 bits, and `>>` failing on one, are not modelled: integers are unbounded.
- Planner.Planner.IsFree computes `rect->x + rect->l` and `rect->y + rect->w` in unbounded
  integers. In the source they are `int` sums, which wrap for obstacle values read from the
  file near the 32-bit limits. The coordinate sums of Planner.Planner.IsFeasible and the
  speculation walk stay near the map and cannot overflow.
- Planner.Planner.Speculate requires mapX <= 2048 and mapY <= 2048, so that every feasible
  cell indexes the fixed-size grids. The source does not check this and would read out of
  bounds on a larger map.
- Planner.OverlapsIsSharedCell requires positive rectangle sides. For a rectangle with a zero
  or negative side the four comparisons can hold although no cell is shared, and the model of
  `isFree` (Planner.Planner.IsFree) follows the comparisons as written.
- Resetting the grids at the start of each `plan` call (xyplan.cpp:129-136) belongs to the
  search loop. Only the initial cleared state is modelled, by the constructor.
- The printing helpers of the utility header (utils.h:20-45) and every `print` and
  `info` call are console output.
- In `replicate.py`, the process is modelled as `Environment.run` from the command's words to
  an exit status and output lines. `proc.stdout.decode().strip()` and `splitlines()` are part
  of that function, since the model receives the output already as lines.
- Sweep.RunTrial leaves converting the token to a number to `Environment.toFloat`, which may
  fail, as `float()` raises on an empty token. Times are exact real numbers, not IEEE doubles.
- The `\d` of the log pattern is read as the ASCII digits 0 to 9; Python also accepts other
  Unicode decimal digits.
- Sweep.Replicate reads the time once per speculative run. The source calls `extractExecTime`
  twice on the same output and discards the first result; the call is deterministic, so the
  result is the same.
- Sweep.Replicate takes the maps from the set in an unspecified order, as Python's set
  iteration does. It states how many reports there are and where they come from, not their
  order across maps.
- Sweep.Words models the word splitting of `shlex.split` only for text without quotes or
  backslashes. A map path containing `'`, `"` or `\` is split differently by the source, which
  removes those characters or raises "No closing quotation"; the model keeps them in the
  words. Sweep.BaselineWords therefore requires a map path with none of them.
- The plotting, the pauses and the saving of each figure (replicate.py:73-81) are matplotlib
  output. Only the file name is modelled.
- `normPerf` is the baseline time divided by the speculative time, as the code computes it.
  Written `[j/i for i, j in zip(execTimeRAstar, execTimeBaseline)]`, it is easily read the
  other way round. `zip` truncates to the shorter series; both series always have one entry
  per thread count (Sweep.GroupReportShape), so this never drops an entry.
