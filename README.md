# Blind Jump cave-map generator, modelled in Dafny

This project models the procedural map generator of the game Blind Jump, the file
`src/mappingFunctions.cpp`. The generator works on fixed 61x61 grids of small tile codes.
Its passes run in this order:

- `generateMap` zeroes the grid and sows random noise over rows and columns 16..43.
- `condense` smooths the noise with a cellular automaton.
- `renumber` recodes 1 to 7 and 0 to 1.
- A random seed cell holding 7 is drawn, and `floodFill` paints its 4-connected region with 5, the
  platform.
- The 7s left over become 1 again.
- `addEdges`, `cleanUp` and `addCenterTiles` refine the grid cell by cell.
- A closing sweep counts the centre tiles 3 and 4 and fills cells enclosed by 5s.
- `initMapOverlay` builds a second, independently smoothed and flood-filled mask. It is rebuilt
  until its platform area reaches 300.
- `combine` merges that mask into the grid, and `cleanEdgesPostCombine` repairs the edges the
  merge left loose.

The model is imperative, like the source:

- Each grid is an `array2<int>`, and each pass is a `method` with the source's loops.
- Every method is proved against a function on the grid's value (`Grid.Cells`, a `seq<seq<int>>`
  of 61 rows of 61 codes).
- The random source `globalRNG()` is an object of class `Random.Rng`. It holds a fixed stream of
  draws and a cursor, so each contract says exactly which draws a pass consumes.
- What the source promises is stated about those functions, in lemmas.

Modules follow the source's passes:

- `Grid`: the grid, its value and row-major counting.
- `Seeding`: zeroing, the noise loops and the seed-cell loops.
- `Smoothing`: `condense`.
- `Connectivity`: `floodFillspread` and `floodFill`.
- `Refinement`: `renumber`, `addEdges`, `cleanUp` and `addCenterTiles`.
- `Overlay`: `initMapOverlay`.
- `Merge`: `combine` and `cleanEdgesPostCombine`.
- `Generation`: `generateMap`.

Points worth knowing when reading the contracts:

- The flood fill is a recursive function, `Connectivity.Spread`. Its termination measure is the
  set of band cells (rows and columns 3..58) that still hold the code being replaced.
  `Connectivity.FillIsComponent` proves two things about it:
  - the cells it recolours are exactly the 4-connected component of the start through band cells
    holding the start's code;
  - no other cell changes.
- Three sweeps, `addEdges`, `cleanUp` and `cleanEdgesPostCombine`, rewrite the grid in place and
  read neighbours they have already rewritten. Their methods prove that the result still equals
  the same rule applied to the grid as it was before the sweep.
- Two sweeps really do depend on their order: `addCenterTiles` and the closing sweep of
  `generateMap`. They are modelled cell by cell in row-major order (`Refinement.CentreSweep`,
  `Generation.FillSweep`). Lemmas then state what each cell ends with, in terms of the grid before
  and after the sweep.
- Two end-to-end properties of a generated map are proved.
  - `Generation.BorderSolid`: rows and columns 0, 1, 59 and 60 hold only 0 and 1.
  - `Generation.StructuralConnected`: the structural cells, codes 2 and up, form one 4-connected
    region around the seed cell. Each pass after the fill adds a structural cell only next to one
    that already exists, and no pass removes one.

## Model

Rows whose third column starts with "proof step:" are one-step facts about the sweeps and loops.
The loop proofs use them. They restate how the source takes a single step, not a property it promises.

| member | source | states |
|---|---|---|
| Grid.Blank | src/mappingFunctions.cpp:154-155 | the grid `memset` leaves is 61x61 and all zero |
| Grid.CountBelowCells | src/mappingFunctions.cpp:170-177 | the row-major count of cells with a given code over the first k cells equals the size of the set of those cells: each cell is counted once |
| Grid.CountBelowCellsStep | src/mappingFunctions.cpp:171-176 | one more visited cell grows the count and the set of counted cells by the same amount |
| Grid.CellsBelowNext | src/mappingFunctions.cpp:171-176 | proof step: the k-th cell in row-major order is new to the set of cells before it, and joins it exactly when it is counted and holds one of the codes |
| Grid.CountCells | src/mappingFunctions.cpp:244-249 | over the whole grid, the row-major count is the number of cells in rows and columns 0..n-1 holding one of the codes |
| Grid.CountStep | src/mappingFunctions.cpp:171-176 | proof step: visiting one more cell adds one to the count exactly when the cell is counted and holds one of the codes |
| Grid.CountRowRest | src/mappingFunctions.cpp:172 | the columns of a row that the counting loop skips add nothing |
| Grid.CountRowsRest | src/mappingFunctions.cpp:171 | the rows that the counting loop skips add nothing |
| Random.Rng.constructor | src/mappingFunctions.cpp:158 | a random stream starts at the given position of the given draw sequence |
| Random.Rng.Next | src/mappingFunctions.cpp:158 | one call of `globalRNG()` yields the draw at the cursor and advances the cursor by one |
| Seeding.Clear | src/mappingFunctions.cpp:217-218 | `memset` leaves every cell 0 |
| Seeding.RowStartGrows | src/mappingFunctions.cpp:156-160 | a later row of the noise square starts at least a full row of draws later |
| Seeding.RowStartArea | src/mappingFunctions.cpp:219-223 | the noise loop takes (hi-lo)*(hi-lo) draws, one per cell |
| Seeding.NoiseDrawsDistinct | src/mappingFunctions.cpp:156-160 | each cell of the noise square takes its own draw, below (hi-lo)^2, and no two cells share one |
| Seeding.NoiseShape | src/mappingFunctions.cpp:158 | the noise grid holds only 0 and 1, and 0 outside its square |
| Seeding.Scatter | src/mappingFunctions.cpp:156-160 | each cell of the square takes its own draw modulo 2 in row-major order; other cells are kept; the cursor advances by the square's size |
| Seeding.SeedNoise | src/mappingFunctions.cpp:217-223 | zeroing followed by the noise loop yields the `Noise` grid and consumes (hi-lo)^2 draws |
| Seeding.TryCell | src/mappingFunctions.cpp:165-166 | a try's coordinates, the next two draws modulo 61, always lie on the grid |
| Seeding.PickSeed | src/mappingFunctions.cpp:164-168 | a seed cell that is found lies on the grid and holds the target code |
| Seeding.PickSeedFirst | src/mappingFunctions.cpp:228-232 | the loop stops at the first try that lands on the target, after two draws per try; it gives up exactly when every try missed |
| Seeding.ShiftTries | src/mappingFunctions.cpp:164-168 | try t+1 from a position is try t from two draws later, so the misses before it shift the same way |
| Seeding.PickSeedIn | src/mappingFunctions.cpp:228-232 | the do-while loop on the grid array returns what `PickSeed` returns and leaves the cursor after the last try |
| Smoothing.OuterRowSize | src/mappingFunctions.cpp:101-112 | an outer row of the neighbourhood holds as many 1s as its three unrolled tests count |
| Smoothing.CentreRowSize | src/mappingFunctions.cpp:119-124 | the centre row holds as many 1s as its two side tests count |
| Smoothing.OnesAroundCountsNeighbours | src/mappingFunctions.cpp:101-124 | the eight unrolled tests count the Moore neighbours holding 1, none missed and none counted twice |
| Smoothing.Passes | src/mappingFunctions.cpp:147-149 | `condense(.., rep)` runs one pass plus the passes of its recursive call while rep > 0: rep+1 passes for a positive rep and one otherwise |
| Smoothing.CondensePassRule | src/mappingFunctions.cpp:125-137 | a pass leaves border cells alone; an interior nonzero cell becomes 0 iff fewer than 2 neighbours hold 1, an interior zero cell becomes 1 iff more than 5 do, and each interior cell ends 0 or 1 |
| Smoothing.CondensedShape | src/mappingFunctions.cpp:95-150 | any number of passes keeps rows and columns 0, 1, 59, 60; after at least one pass the interior holds only 0 and 1 |
| Smoothing.PassKeepsZeroOutside | src/mappingFunctions.cpp:125-137 | a 0 outside a square of 0s has at most three neighbours holding 1, too few to become 1, so one pass keeps everything outside the square at 0 |
| Smoothing.CondensedZeroOutside | src/mappingFunctions.cpp:95-150 | any number of passes keeps everything outside the noise square at 0: the smoothing never grows the cave past its noise |
| Smoothing.Condense | src/mappingFunctions.cpp:95-150 | the recursive `condense` makes the grid equal to Passes(rep) synchronous passes of the rule, and leaves the scratch grid's border alone |
| Smoothing.SmoothInto | src/mappingFunctions.cpp:98-139 | the first double loop writes the rule's value of every interior cell, computed from the grid alone, into the scratch grid, and changes nothing else |
| Smoothing.SmoothRow | src/mappingFunctions.cpp:99-138 | one row of the first double loop writes the rule's value of its interior cells into the scratch grid |
| Smoothing.SmoothedAt | src/mappingFunctions.cpp:100-137 | the unrolled count and the rule give the value `Smoothed` specifies |
| Smoothing.SmoothCell | src/mappingFunctions.cpp:100-137 | one visit writes the rule's value for (i, j) into the scratch grid and leaves every other scratch cell alone |
| Smoothing.CopyBack | src/mappingFunctions.cpp:141-145 | the copy-back puts the scratch grid's interior into the grid and keeps the grid's border |
| Connectivity.FillsOnlyTrans | src/mappingFunctions.cpp:30-33 | two fills in a row still only turn band cells holding prevC into newC |
| Connectivity.PendingShrinks | src/mappingFunctions.cpp:24-27 | recolouring never adds a band cell holding prevC: the fill's termination measure does not grow |
| Connectivity.Spread | src/mappingFunctions.cpp:21-34 | `floodFillspread` only turns band cells holding prevC into newC, and never adds such a cell |
| Connectivity.ConnectedFromBand | src/mappingFunctions.cpp:23 | a start outside the band (rows and columns 3..58) reaches nothing |
| Connectivity.ConnectedHolds | src/mappingFunctions.cpp:23-27 | a cell the fill can reach lies in the band and holds the colour being replaced |
| Connectivity.SpreadSeals | src/mappingFunctions.cpp:27-33 | after the fill the start no longer holds prevC, and no recoloured cell has a band neighbour still holding prevC |
| Connectivity.SealedAfterStep | src/mappingFunctions.cpp:27-33 | the four recursive calls together seal the start and everything they recoloured |
| Connectivity.SealedPersists | src/mappingFunctions.cpp:30-33 | later fills keep a sealed cell sealed |
| Connectivity.PathBack | src/mappingFunctions.cpp:30-33 | a walk through prevC cells after earlier fills was already one before them |
| Connectivity.ExtendPath | src/mappingFunctions.cpp:30-33 | a cell reached from a neighbour of the start is reached from the start itself |
| Connectivity.ConsPath | src/mappingFunctions.cpp:30-33 | a band cell holding prevC next to a walk's first cell extends the walk |
| Connectivity.SpreadConnected | src/mappingFunctions.cpp:27-33 | every cell the fill recolours is 4-connected to the start through band cells that held prevC |
| Connectivity.ThroughNeighbour | src/mappingFunctions.cpp:30-33 | a cell recoloured by the call at one neighbour is connected to the start |
| Connectivity.WalkFilled | src/mappingFunctions.cpp:27-33 | every cell on a walk from a recoloured cell through prevC cells is recoloured too |
| Connectivity.FillIsComponent | src/mappingFunctions.cpp:36-39 | `floodFill` recolours with newC exactly the cells 4-connected to the start through band cells holding the start's code, keeps every other cell, and changes nothing from a start outside the band |
| Connectivity.FloodFillSpread | src/mappingFunctions.cpp:21-34 | the recursion on the grid array leaves the grid equal to `Spread` of the grid before it |
| Connectivity.FloodFill | src/mappingFunctions.cpp:36-39 | the grid becomes `Fill` of the grid before, the fill whose region `FillIsComponent` describes |
| Refinement.Recode | src/mappingFunctions.cpp:54-58 | `renumber` on one cell: the result is never 0; it is 1 iff the cell held 0, 7 iff it held 1 or 7, and other codes are kept |
| Refinement.Renumber | src/mappingFunctions.cpp:51-61 | every cell of the grid is recoded |
| Refinement.AddEdges | src/mappingFunctions.cpp:63-79 | the in-place sweep gives the synchronous rule: a 1 with a 5 only on its left becomes 2, with 5s on both sides 5, with a 5 only on its right 6; other cells are kept |
| Refinement.EdgedSettled | src/mappingFunctions.cpp:63-79 | after `addEdges` no 1 has a 5 beside it in its row, so a second sweep changes nothing |
| Refinement.CleanUp | src/mappingFunctions.cpp:41-49 | the in-place sweep turns exactly the 1s in rows and columns 1..59 whose four neighbours are below 2 into 0, judged on the grid as it was |
| Refinement.CleanUpRow | src/mappingFunctions.cpp:43-47 | one row of the sweep, with the rows above already cleaned, cleans its own isolated 1s |
| Refinement.CleanedUpSettled | src/mappingFunctions.cpp:41-49 | after `cleanUp` no isolated 1 is left, so a second sweep changes nothing |
| Refinement.CentreCode | src/mappingFunctions.cpp:85-89 | a draw gives 3 iff it is above 2 modulo 12, and 4 otherwise |
| Refinement.CentreSweepStep | src/mappingFunctions.cpp:82-91 | proof step: the sweep's visit to (i, j) follows the visits to all earlier cells and draws only when the cell is surrounded |
| Refinement.SweepUnvisited | src/mappingFunctions.cpp:82-91 | cells the sweep has not reached yet hold their original codes |
| Refinement.SweepVisited | src/mappingFunctions.cpp:82-91 | cells the sweep has passed are never rewritten |
| Refinement.SweepSees | src/mappingFunctions.cpp:84 | the neighbours the sweep tests at (i, j) are the final codes above and to the left, and the original codes below and to the right |
| Refinement.SweepDraws | src/mappingFunctions.cpp:85 | the stream advances once for each cell visited so far that passed the test |
| Refinement.SweepDrawsStep | src/mappingFunctions.cpp:84-85 | the visit to one cell draws once exactly when the cell, as the sweep sees it, is surrounded by platform codes |
| Refinement.CentreTilesAt | src/mappingFunctions.cpp:81-93 | a cell whose four neighbours, as the sweep saw them, are in {3, 4, 5} becomes the centre tile of its own draw, taken in row-major order; every other cell is kept; the stream advances by the number of such cells |
| Refinement.AddCenterTiles | src/mappingFunctions.cpp:81-93 | the in-place sweep on the array gives the grid and cursor of `CentreTiles` |
| Refinement.CentreRow | src/mappingFunctions.cpp:83-91 | one row of the sweep advances it from the start of row i to the start of row i+1 |
| Refinement.CentreVisit | src/mappingFunctions.cpp:84-90 | one visit advances the grid and the stream from the sweep's state before (i, j) to its state after it |
| Refinement.CentreCell | src/mappingFunctions.cpp:84-90 | the body at (i, j) writes the centre code of the next draw into a surrounded cell and consumes one draw, and does nothing otherwise |
| Refinement.SurroundedAt | src/mappingFunctions.cpp:84 | the four-neighbour test on the array matches `Surrounded` |
| Overlay.CountPlatform | src/mappingFunctions.cpp:170-177 | the counting loop returns the row-major count of 5s in rows and columns 0..58 |
| Overlay.CountPlatformRow | src/mappingFunctions.cpp:172-176 | one row of the counting loop adds that row's 5s |
| Overlay.CountPlatformCell | src/mappingFunctions.cpp:173-175 | a 5 at (i, j) adds one to the count and any other code adds nothing |
| Overlay.MaskIsBinary | src/mappingFunctions.cpp:154-161 | before the fill the overlay mask holds only 0 and 1 |
| Overlay.OverlayIsRegion | src/mappingFunctions.cpp:164-169 | once a seed cell is found, the overlay holds only 0, 1 and 5, and its 5s are exactly the cells connected to the seed through band cells of the mask holding 1 |
| Overlay.OverlayArea | src/mappingFunctions.cpp:170-178 | the area `initMapOverlay` returns is the number of 5s in rows and columns 0..58 |
| Overlay.MapOverlayOf | src/mappingFunctions.cpp:152-179 | proof step: given the mask and the seed loop's outcome, the overlay is no mask when the tries run out, and is otherwise the filled mask with its count |
| Overlay.OverlayMaskInto | src/mappingFunctions.cpp:153-161 | zeroing, noise over rows and columns 5..53 and `condense(.., 3)` give `OverlayMask` and consume 49*49 draws |
| Overlay.InitMapOverlay | src/mappingFunctions.cpp:152-179 | the grid and the returned area are those of `MapOverlay`, unless the seed loop runs out of tries |
| Generation.Unmark | src/mappingFunctions.cpp:234-240 | the sweep turns every 7 in rows and columns 2..58 into 1 and keeps everything else |
| Generation.FillSweepNext | src/mappingFunctions.cpp:245-254 | proof step: the closing sweep visits the cells one at a time, in row-major order |
| Generation.FillStepAt | src/mappingFunctions.cpp:250-252 | proof step: the visit to (i, j) fills it with 5 exactly when it lies in rows and columns 0..58 and its four neighbours hold 5 |
| Generation.FillUnvisited | src/mappingFunctions.cpp:245-254 | cells not reached yet, and cells outside rows and columns 0..58, hold their original codes |
| Generation.FillVisited | src/mappingFunctions.cpp:245-254 | cells the sweep has passed are never rewritten |
| Generation.FillSweepKeeps | src/mappingFunctions.cpp:250-252 | proof step: the visit to one cell leaves every other cell of the grid alone |
| Generation.FillSweepStep | src/mappingFunctions.cpp:246-253 | when the sweep reaches (i, j) the cell still holds its original code, and the visit fills it iff it is enclosed by 5s |
| Generation.FillRowRest | src/mappingFunctions.cpp:246 | the columns of a row that the sweep skips change nothing |
| Generation.FillSkip | src/mappingFunctions.cpp:246 | proof step: a cell outside rows and columns 0..58 is passed over unchanged |
| Generation.FillRowsRest | src/mappingFunctions.cpp:245 | the rows that the sweep skips change nothing |
| Generation.Finish | src/mappingFunctions.cpp:244-254 | the closing sweep leaves the grid `FillSweep` gives and returns the count of 3s and 4s in rows and columns 0..58 of the grid before the sweep |
| Generation.FinishRow | src/mappingFunctions.cpp:246-253 | one row of the closing sweep advances grid and count from the start of row i to the start of row i+1 |
| Generation.FillRowDone | src/mappingFunctions.cpp:245-246 | proof step: rows end at column 59: the columns 59 and 60 change neither the grid nor the count |
| Generation.FinishVisit | src/mappingFunctions.cpp:247-252 | one visit advances grid and count by one cell |
| Generation.FinishCell | src/mappingFunctions.cpp:247-252 | the body counts a cell holding 3 or 4 before it may fill the cell with 5 |
| Generation.FivesAt | src/mappingFunctions.cpp:250 | the array test, below, above, right then left, matches `FiveAround` |
| Generation.FinishSees | src/mappingFunctions.cpp:250 | the neighbours the sweep tests are the final codes above and to the left, and the original codes below and to the right |
| Generation.FinishedCount | src/mappingFunctions.cpp:244-249 | the count `generateMap` returns is the number of cells in rows and columns 0..58 that held 3 or 4 after `addCenterTiles` |
| Generation.FinishedAt | src/mappingFunctions.cpp:250-251 | a cell of rows and columns 1..58 enclosed by 5s, as the sweep saw them, becomes 5, and every other cell keeps its code |
| Generation.OverlayRetry | src/mappingFunctions.cpp:257-259 | the overlay loop only accepts an overlay whose area is at least 300 |
| Generation.OverlayRound | src/mappingFunctions.cpp:258-259 | a round that ends the loop with an overlay has an area of at least 300 |
| Generation.OverlayRetryStep | src/mappingFunctions.cpp:257-259 | proof step: one round of the loop: no seed ends it, an area of 300 or more is accepted, and a smaller area is retried from the stream position after it |
| Generation.OverlayAttempt | src/mappingFunctions.cpp:258 | one `initMapOverlay` call advances the loop as `OverlayRetryStep` states |
| Generation.OverlayLoop | src/mappingFunctions.cpp:257-259 | the do-while loop on the array accepts exactly when `OverlayRetry` yields a mask, and then holds that mask |
| Generation.MainMaskInto | src/mappingFunctions.cpp:216-225 | zeroing, noise over rows and columns 16..43, `condense(.., 1)` and `renumber` give `MainMask` and consume 28*28 draws |
| Generation.ShapeMap | src/mappingFunctions.cpp:233-254 | fill, unmark, `addEdges`, `cleanUp`, `addCenterTiles` and the closing sweep give the grid, count and cursor of `Shaped` |
| Generation.CarveMap | src/mappingFunctions.cpp:215-254 | everything before the overlay loop gives `Carved`, unless the seed loop runs out of tries |
| Generation.GenerateMap | src/mappingFunctions.cpp:215-264 | the whole generator gives the grid and count of `Generate`, unless a retry loop runs out of its budget |
| Generation.MainMaskCodes | src/mappingFunctions.cpp:217-225 | before the fill the main grid holds only 1 and 7 |
| Generation.PlatformRegion | src/mappingFunctions.cpp:228-233 | the platform fill turns into 5 exactly the cells connected to the seed through band cells holding 7, and keeps every other cell |
| Generation.RefinedCodes | src/mappingFunctions.cpp:234-242 | the 7-to-1 sweep, `addEdges` and `cleanUp` take a grid of 1s, 5s and 7s into codes 0..7 |
| Generation.CentreTilesCodes | src/mappingFunctions.cpp:243 | `addCenterTiles` keeps a grid within codes 0..7 |
| Generation.CentredCodes | src/mappingFunctions.cpp:233-243 | from a mask of 1s and 7s, the passes up to `addCenterTiles` leave codes 0..7 only |
| Generation.FinishedCodes | src/mappingFunctions.cpp:244-254 | the closing sweep keeps a grid within codes 0..7 |
| Generation.CarvedCodes | src/mappingFunctions.cpp:215-254 | before the overlay is merged in, the main grid holds codes 0..7 only |
| Generation.CarvedCount | src/mappingFunctions.cpp:244-263 | the count returned is the number of 3s and 4s in rows and columns 0..58 after `addCenterTiles`, and carving fails only when the seed loop does |
| Generation.GeneratedMap | src/mappingFunctions.cpp:255-263 | the generator finishes only with an overlay of area 300 or more; the count is the carved grid's; every cell ends with its carved or its combined code, within 0..11; 0s and 1s are never written or overwritten by the merge |
| Generation.MainMaskOutside | src/mappingFunctions.cpp:217-225 | outside the noise square, rows and columns 16..43, the main grid holds 1 once it is renumbered |
| Generation.UnmarkedOutside | src/mappingFunctions.cpp:233-240 | outside the noise square the grid `addEdges` receives holds 1: the fill recolours only 7s, and those lie inside the square |
| Generation.RefinedFar | src/mappingFunctions.cpp:233-242 | two or more rows or columns from the noise square, the grid after `cleanUp` holds only 0 and 1: the fill recolours only 7s, and `addEdges` finds no 5 beside those cells |
| Generation.CentredRing | src/mappingFunctions.cpp:81-92 | `addCenterTiles` writes nothing on rows and columns 0, 1, 59 and 60, which then hold only 0 and 1 |
| Generation.FinishedRing | src/mappingFunctions.cpp:244-254 | the closing sweep writes nothing on rows and columns 0, 1, 59 and 60 |
| Generation.CarvedRing | src/mappingFunctions.cpp:215-254 | before the overlay is merged in, rows and columns 0, 1, 59 and 60 hold only 0 and 1 |
| Generation.BorderSolid | src/mappingFunctions.cpp:215-263 | the generated map's border stays solid: rows and columns 0, 1, 59 and 60 hold no platform, edge or centre code, only 0 and 1 |
| Generation.FilledRegion | src/mappingFunctions.cpp:233-240 | after the fill and the 7 to 1 sweep, the seed cell is structural and every structural cell is reached from it through structural cells |
| Generation.FillWalkBuilt | src/mappingFunctions.cpp:21-39 | proof step: every cell on a walk of 7s from the seed is filled with 5 |
| Generation.GrowRegion | src/mappingFunctions.cpp:241-254 | proof step: a pass that keeps structural cells and adds one only beside an existing one keeps the region connected to the seed |
| Generation.EdgedGrows | src/mappingFunctions.cpp:63-79 | `addEdges` keeps the structural region connected: it writes 2, 5 or 6 only on a 1 beside a 5 |
| Generation.CleanedKeeps | src/mappingFunctions.cpp:41-49 | `cleanUp` keeps the structural region connected: it only turns 1s into 0s |
| Generation.CentredGrows | src/mappingFunctions.cpp:81-92 | `addCenterTiles` keeps the structural region connected: it writes 3 or 4 only where the neighbour below is structural |
| Generation.FinishedGrows | src/mappingFunctions.cpp:244-254 | the closing sweep keeps the structural region connected: it writes 5 only where the neighbour below holds 5 |
| Generation.CarvedRegion | src/mappingFunctions.cpp:215-254 | before the merge, every structural cell is reached from the seed cell through structural cells |
| Generation.RegionIsOne | src/mappingFunctions.cpp:215-263 | when every structural cell is reached from one cell, any two structural cells are reached from each other |
| Generation.StructuralConnected | src/mappingFunctions.cpp:215-263 | the structural cells of a generated map (codes 2 and up) form one 4-connected region containing the seed cell |
| Merge.Combine | src/mappingFunctions.cpp:181-200 | every cell takes its `CombineCode` from the map cell and the overlay cell; the overlay is only read |
| Merge.CombineMarks | src/mappingFunctions.cpp:184-196 | on codes 0..7, `combine` changes exactly the cells under an overlay 5 that hold neither 0 nor 1, each into a code 8..11, and every changed cell except an 11 can be mapped back (9 to 2, 10 to 6, 8 to 5) |
| Merge.CleanEdgesPostCombine | src/mappingFunctions.cpp:202-213 | the in-place sweep gives the synchronous repair: a 9 without an 8 on its left becomes 2, a 10 without an 8 on its right becomes 6 |
| Merge.RepairedEdges | src/mappingFunctions.cpp:202-213 | after the repair every 9 in rows and columns 1..59 has an 8 on its left and every 10 an 8 on its right; the only changes are 9 to 2 and 10 to 6, so no 8 is touched; a second repair changes nothing |
| Merge.RepairRestores | src/mappingFunctions.cpp:205-210 | after `combine` on codes 0..7, the repair only puts back a cell's code from before `combine` |

## Left out

- Random.Rng: `globalRNG()` itself is not modelled. The stream of draws is a parameter, already
  made non-negative. That also avoids `std::abs` of the smallest `int`, which has no positive
  counterpart.
- Seeding.PickSeedIn: the seed-cell do-while loops (lines 164-168 and 228-232) have no bound in the
  source and never end when no cell holds the target. The model allows at most `tries` tries and
  reports `GaveUp` when they run out. It claims nothing about termination.
- Generation.OverlayLoop: the overlay do-while loop (lines 257-259) has no bound either. The model
  allows at most `rounds` rounds, and each round's seed loop gets `tries` tries.
- Generation.GenerateMap: because of those budgets it reports `done == false` when a budget runs
  out. The source would keep looping in that case.
- Refinement.AddEdges: at column 0 and column 60 the source reads `map[i][-1]` and `map[i][61]`,
  which is undefined behaviour in C++. The model treats such a neighbour as "not 5". In a flat
  layout these reads land on column 60 of the row above or column 0 of the row below. Those cells
  hold 1 at that stage of the pipeline (`Generation.UnmarkedOutside`), so the model agrees with
  the usual layout there. The exceptions are the two corner reads, `map[0][-1]` and
  `map[60][61]`, which fall outside the array altogether. Their values are unknown, and the
  model does not capture what they would do to cells (0, 0) and (60, 60).
- Refinement.AddCenterTiles: at rows and columns 0 and 60 the source reads outside the grid. The
  model treats those reads as not structural (not 3, 4 or 5). In the generator this choice
  cannot change the outcome. A cell in row 0 also needs `map[1][j]` to be structural, a cell in
  row 60 needs `map[59][j]`, and cells in columns 0 and 60 need the same of columns 1 and 59.
  `Generation.RefinedFar` proves that those rows and columns hold only 0 or 1 when
  `addCenterTiles` runs. For `addCenterTiles` called on other grids the model still fixes the
  outside reads as not structural.
- Generation.Finish: in the closing sweep, the reads at `i - 1 == -1` and `j - 1 == -1` are treated
  as not 5, so cells in row 0 or column 0 are never filled. In the generator this choice cannot
  change the outcome: such a cell also needs a 5 in row 1 or column 1 of the grid before the sweep,
  and `Generation.CentredRing` shows that those hold only 0 and 1.
- Connectivity.FloodFill: it requires `FillEnds`. That excludes a start in the band that already
  holds `newC` and has a band neighbour holding `newC` too. On that input the source never
  returns: `prevC == newC`, so the start and that neighbour keep sending the recursion back to
  each other. Every other start is allowed, including a band start holding `newC` with no such
  neighbour; the source only rewrites that cell with its own code. Both calls in the generator
  meet the requirement: the seed holds 7, or 1, and `newC` is 5.
- Connectivity.FloodFillSpread: the depth of the recursion, and the stack it needs, is not
  modelled.
- Tile codes are `uint8_t` in the source and `int` here. Every code the generator writes lies in
  0..11, so no 8-bit wrap-around can occur. The counters are `int` in the source and stay below
  61*61.
- Both `memset` calls in `initMapOverlay` are modelled as one zeroing; the second call repeats the
  first.
- The uninitialised scratch grid `maptemp` in `initMapOverlay` is a fresh array in the model.
  `condense` reads only the interior of that grid, and only after writing it.
- The uninitialised `mapOverlay` of `generateMap` is a fresh array in the model.
  `initMapOverlay` zeroes it before any read.
- A retry while a count is below 150 is not part of this model. `Blind Jump/gameMap.cpp`
  (lines 577-580) retries `mappingFunction(tiles.mapArray, level, level < BOSS_LEVEL_1)` while
  its count is below 150. That is a three-argument function whose definition is not among the
  source files, and no source file calls `generateMap`. So the link between that retry and
  `generateMap` is not shown.
- The other files of the repository are not part of this model: the Lua bridge, the user
  interface, the enemy and effect classes, resource loading and sound. They are I/O and
  rendering.

## Behaviour worth noting

- `condense(map, maptemp, rep)` runs `rep + 1` passes when `rep > 0` (lines 147-149).
  So `condense(.., 3)` in `initMapOverlay` runs four passes, and `condense(.., 1)` in
  `generateMap` runs two (`Smoothing.Passes`).
- The overlay loop in `generateMap` retries only while the area is below 300, so it accepts an
  area of exactly 300 (line 259).
- The repair after the merge looks for an 8 to the left of a 9 and to the right of a 10
  (lines 205-210).
- `generateMap` has no loop on a minimum count. `Blind Jump/gameMap.cpp` retries
  `mappingFunction` while its count is below 150, and how that function relates to `generateMap`
  is not shown.
- `addCenterTiles` picks tile 3 for 9 of the 12 residues of the draw modulo 12, and tile 4 for
  the other 3 (line 85).
