/** `generateMap`: the driver that runs every pass and counts the centre tiles it placed. */
module Generation {
  import opened Grid
  import opened Random
  import opened Smoothing
  import opened Connectivity
  import opened Refinement
  import opened Seeding
  import opened Overlay
  import opened Merge

  // ----- the 7 to 1 sweep -----

  /** The sweep over rows and columns 2..58 after the fill: every 7 left there becomes 1. */
  function Unmarked(s: Tiles): Tiles
  {
    seq(Size, i requires 0 <= i < Size =>
      seq(Size, j requires 0 <= j < Size => if Interior(i, j) && s[i][j] == 7 then 1 else s[i][j]))
  }

  method Unmark(g: array2<int>)
    requires IsMap(g)
    modifies g
    ensures Cells(g) == Unmarked(old(Cells(g)))
  {
    ghost var s := Cells(g);
    for i := 2 to 59
      invariant forall a, b :: OnGrid(a, b) ==> g[a, b] == if a < i && Interior(a, b) && s[a][b] == 7 then 1 else s[a][b]
    {
      for j := 2 to 59
        invariant forall a, b :: OnGrid(a, b) ==>
          g[a, b] == if (a < i || (a == i && b < j)) && Interior(a, b) && s[a][b] == 7 then 1 else s[a][b]
      {
        if g[i, j] == 7 {
          g[i, j] := 1;
        }
      }
    }
    SameTiles(Cells(g), Unmarked(s));
  }

  // ----- the closing sweep: count centre tiles, fill enclosed cells -----

  /** The codes the closing sweep counts. */
  const Centres: set<int> := {3, 4}

  /**
   * The closing sweep's test at (i, j), on the grid as it is at that moment: the cells below,
   * above, right and left all hold 5; a read above row 0 or left of column 0 never does.
   */
  predicate FiveAround(s: Tiles, i: int, j: int)
    requires 0 <= i < Counted && 0 <= j < Counted
  {
    && 0 < i && 0 < j
    && s[i + 1][j] == 5 && s[i - 1][j] == 5 && s[i][j + 1] == 5 && s[i][j - 1] == 5
  }

  /**
   * The closing sweep's visit to the cell with flat index `k`: a cell in rows and columns 0..58
   * whose four neighbours hold 5, on the grid as the sweep has left it so far, becomes 5.
   */
  function FillStep(t: Tiles, k: int): Tiles
    requires 0 <= k < Area
  {
    var i, j := k / 61, k % 61;
    if i < Counted && j < Counted && FiveAround(t, i, j) then Set(t, i, j, 5) else t
  }

  /** The grid once the closing sweep has visited the first `k` cells in row-major order. */
  function FillSweep(s: Tiles, k: int): Tiles
    requires 0 <= k <= Area
  {
    if k == 0 then s else FillStep(FillSweep(s, k - 1), k - 1)
  }

  /** A grid together with a count. */
  datatype Tally = Tally(tiles: Tiles, count: nat)

  /**
   * The closing sweep of `generateMap` on a grid value: the grid it leaves, and the count it
   * returns, which is stated on the grid as it was before the sweep (the method proves that
   * counting each cell just before the sweep may rewrite it gives this number).
   */
  function Finished(s: Tiles): Tally
  {
    Tally(FillSweep(s, Area), CountBelow(s, Centres, Counted, Area))
  }

  lemma FillSweepNext(s: Tiles, k: int)
    requires 0 <= k < Area
    ensures FillSweep(s, k + 1) == FillStep(FillSweep(s, k), k)
  {
  }

  /** The visit to the cell with flat index `Index(i, j)` is the visit to (i, j). */
  lemma FillStepAt(t: Tiles, i: int, j: int)
    requires OnGrid(i, j)
    ensures 0 <= Index(i, j) < Area
    ensures FillStep(t, Index(i, j)) == if i < Counted && j < Counted && FiveAround(t, i, j) then Set(t, i, j, 5) else t
  {
    IndexCell(i, j);
  }

  /** Cells the sweep has not reached yet, and cells outside rows and columns 0..58, hold their first codes. */
  lemma {:induction false} FillUnvisited(s: Tiles, k: int, a: int, b: int)
    requires 0 <= k <= Area && OnGrid(a, b) && (Index(a, b) >= k || a >= Counted || b >= Counted)
    ensures FillSweep(s, k)[a][b] == s[a][b]
    decreases k
  {
    if k > 0 {
      FillUnvisited(s, k - 1, a, b);
      if Index(a, b) == k - 1 {
        FillSweepNext(s, k - 1);
        FillStepAt(FillSweep(s, k - 1), a, b);
      } else {
        FillSweepKeeps(s, k, a, b);
      }
    }
  }

  /** Cells the sweep has passed are never rewritten again. */
  lemma {:induction false} FillVisited(s: Tiles, k: int, m: int, a: int, b: int)
    requires 0 <= k <= m <= Area && OnGrid(a, b) && Index(a, b) < k
    ensures FillSweep(s, m)[a][b] == FillSweep(s, k)[a][b]
    decreases m - k
  {
    if k < m {
      FillVisited(s, k, m - 1, a, b);
      FillSweepKeeps(s, m, a, b);
    }
  }

  /** The visit to the cell with flat index `k - 1` leaves every other cell alone. */
  lemma FillSweepKeeps(s: Tiles, k: int, a: int, b: int)
    requires 0 < k <= Area && OnGrid(a, b) && Index(a, b) != k - 1
    ensures FillSweep(s, k)[a][b] == FillSweep(s, k - 1)[a][b]
  {
    CellOf(k - 1);
  }

  /** The sweep's visit to (i, j) of rows and columns 0..58, which still holds its first code then. */
  lemma FillSweepStep(s: Tiles, i: int, j: int)
    requires 0 <= i < Counted && 0 <= j < Counted
    ensures 0 <= Index(i, j) < Area && Index(i, j) + 1 == Index(i, j + 1)
    ensures var t := FillSweep(s, Index(i, j));
      && t[i][j] == s[i][j]
      && FillSweep(s, Index(i, j) + 1) == if FiveAround(t, i, j) then Set(t, i, j, 5) else t
  {
    IndexCell(i, j);
    FillUnvisited(s, Index(i, j), i, j);
    FillSweepNext(s, Index(i, j));
    FillStepAt(FillSweep(s, Index(i, j)), i, j);
  }

  /** Columns from `j` on of a row the sweep skips change nothing. */
  lemma {:induction false} FillRowRest(s: Tiles, i: int, j: int)
    requires 0 <= i < Size && 0 <= j <= Size && (i >= Counted || j >= Counted)
    ensures Index(i, j) <= Index(i, Size) <= Area
    ensures FillSweep(s, Index(i, Size)) == FillSweep(s, Index(i, j))
    decreases Size - j
  {
    if j < Size {
      FillSkip(s, i, j);
      FillRowRest(s, i, j + 1);
    }
  }

  /** The sweep passes over a cell outside rows and columns 0..58 without changing anything. */
  lemma FillSkip(s: Tiles, i: int, j: int)
    requires OnGrid(i, j) && (i >= Counted || j >= Counted)
    ensures Index(i, j) < Index(i, j + 1) <= Area
    ensures FillSweep(s, Index(i, j + 1)) == FillSweep(s, Index(i, j))
  {
    IndexCell(i, j);
    FillSweepNext(s, Index(i, j));
    FillStepAt(FillSweep(s, Index(i, j)), i, j);
  }

  /** Rows from `i` on, all past row 58, change nothing. */
  lemma {:induction false} FillRowsRest(s: Tiles, i: int)
    requires Counted <= i <= Size
    ensures FillSweep(s, Area) == FillSweep(s, Index(i, 0))
    decreases Size - i
  {
    if i < Size {
      FillRowsRest(s, i + 1);
      FillRowRest(s, i, 0);
    }
  }

  /**
   * The closing sweep: counts the 3s and 4s in rows and columns 0..58 and fills enclosed cells
   * with 5. Each cell is counted before the sweep may rewrite it, so the count is that of the
   * grid as it was.
   */
  method Finish(g: array2<int>) returns (count: nat)
    requires IsMap(g)
    modifies g
    ensures var d := Finished(old(Cells(g))); Cells(g) == d.tiles && count == d.count
  {
    ghost var s := Cells(g);
    count := 0;
    for i := 0 to Counted
      invariant Cells(g) == FillSweep(s, Index(i, 0)) && count == CountBelow(s, Centres, Counted, Index(i, 0))
    {
      count := FinishRow(g, s, i, count);
    }
    FillRowsRest(s, Counted);
    CountRowsRest(s, Centres, Counted, Counted);
  }

  /** Row `i` of the closing sweep. */
  method FinishRow(g: array2<int>, ghost s: Tiles, i: int, count: nat) returns (count': nat)
    requires IsMap(g) && 0 <= i < Counted
    requires Cells(g) == FillSweep(s, Index(i, 0)) && count == CountBelow(s, Centres, Counted, Index(i, 0))
    modifies g
    ensures Cells(g) == FillSweep(s, Index(i + 1, 0)) && count' == CountBelow(s, Centres, Counted, Index(i + 1, 0))
  {
    count' := count;
    for j := 0 to Counted
      invariant Cells(g) == FillSweep(s, Index(i, j))
      invariant count' == CountBelow(s, Centres, Counted, Index(i, j))
    {
      count' := FinishVisit(g, s, i, j, count');
    }
    FillRowDone(s, i);
  }

  /** After column 58 of row `i` the sweep and the count are where they stand at the start of row `i + 1`. */
  lemma FillRowDone(s: Tiles, i: int)
    requires 0 <= i < Counted
    ensures Index(i, Counted) <= Area && Index(i + 1, 0) <= Area
    ensures FillSweep(s, Index(i + 1, 0)) == FillSweep(s, Index(i, Counted))
    ensures CountBelow(s, Centres, Counted, Index(i + 1, 0)) == CountBelow(s, Centres, Counted, Index(i, Counted))
  {
    FillRowRest(s, i, Counted);
    CountRowRest(s, Centres, Counted, i, Counted);
    assert Index(i, Size) == Index(i + 1, 0);
  }

  /** The sweep's visit to (i, j): from its state before the cell to its state after it. */
  method FinishVisit(g: array2<int>, ghost s: Tiles, i: int, j: int, count: nat) returns (count': nat)
    requires IsMap(g) && 0 <= i < Counted && 0 <= j < Counted
    requires Cells(g) == FillSweep(s, Index(i, j)) && count == CountBelow(s, Centres, Counted, Index(i, j))
    modifies g
    ensures Cells(g) == FillSweep(s, Index(i, j + 1)) && count' == CountBelow(s, Centres, Counted, Index(i, j + 1))
  {
    FillSweepStep(s, i, j);
    CountStep(s, Centres, Counted, i, j);
    count' := FinishCell(g, i, j, count);
  }

  /** The body of the closing sweep at (i, j): count a 3 or 4, then fill the cell when enclosed by 5s. */
  method FinishCell(g: array2<int>, i: int, j: int, count: nat) returns (count': nat)
    requires IsMap(g) && 0 <= i < Counted && 0 <= j < Counted
    modifies g
    ensures var s := old(Cells(g));
      && count' == count + (if s[i][j] in Centres then 1 else 0)
      && Cells(g) == if FiveAround(s, i, j) then Set(s, i, j, 5) else s
  {
    ghost var s := Cells(g);
    count' := count;
    if g[i, j] == 3 || g[i, j] == 4 {
      count' := count' + 1;
    }
    var enclosed := FivesAt(g, i, j);
    if enclosed {
      g[i, j] := 5;
      SameTiles(Cells(g), Set(s, i, j, 5));
    }
  }

  /** The closing sweep's test on the grid array, in the source's order: below, above, right, left. */
  method FivesAt(g: array2<int>, i: int, j: int) returns (b: bool)
    requires IsMap(g) && 0 <= i < Counted && 0 <= j < Counted
    ensures b == FiveAround(Cells(g), i, j)
  {
    b := g[i + 1, j] == 5 && (i > 0 && g[i - 1, j] == 5) && g[i, j + 1] == 5 && (j > 0 && g[i, j - 1] == 5);
  }

  /**
   * The closing sweep's test stated on the start grid `s` and the final grid `t`: the cells
   * above and to the left were visited earlier and hold their final codes, those below and to
   * the right still hold their first.
   */
  predicate SeenEnclosed(t: Tiles, s: Tiles, i: int, j: int)
    requires 0 <= i < Counted && 0 <= j < Counted
  {
    && 0 < i && 0 < j
    && s[i + 1][j] == 5 && t[i - 1][j] == 5 && s[i][j + 1] == 5 && t[i][j - 1] == 5
  }

  lemma FinishSees(s: Tiles, i: int, j: int)
    requires 0 <= i < Counted && 0 <= j < Counted
    ensures 0 <= Index(i, j) < Area
    ensures var t := FillSweep(s, Index(i, j));
      t[i][j] == s[i][j] && (FiveAround(t, i, j) <==> SeenEnclosed(Finished(s).tiles, s, i, j))
  {
    IndexCell(i, j);
    var k := Index(i, j);
    FillUnvisited(s, k, i, j);
    FillUnvisited(s, k, i + 1, j);
    FillUnvisited(s, k, i, j + 1);
    if i > 0 {
      FillVisited(s, k, Area, i - 1, j);
    }
    if j > 0 {
      FillVisited(s, k, Area, i, j - 1);
    }
  }

  /**
   * The count `generateMap` returns is the number of cells in rows and columns 0..58 holding 3 or
   * 4 before the closing sweep.
   */
  lemma FinishedCount(s: Tiles)
    ensures Finished(s).count == |set i, j | 0 <= i < Size && 0 <= j < Size && i < Counted && j < Counted && s[i][j] in Centres :: (i, j)|
  {
    CountCells(s, Centres, Counted);
  }

  /**
   * The closing sweep on every cell: a cell of rows and columns 1..58 whose four neighbours, as
   * the sweep saw them, hold 5 becomes 5; every other cell keeps its code.
   */
  lemma FinishedAt(s: Tiles, i: int, j: int)
    requires OnGrid(i, j)
    ensures Finished(s).tiles[i][j] == if i < Counted && j < Counted && SeenEnclosed(Finished(s).tiles, s, i, j) then 5 else s[i][j]
  {
    if i < Counted && j < Counted {
      FinishSees(s, i, j);
      IndexCell(i, j);
      FillVisited(s, Index(i, j) + 1, Area, i, j);
      FillSweepNext(s, Index(i, j));
      FillStepAt(FillSweep(s, Index(i, j)), i, j);
    } else {
      FillUnvisited(s, Area, i, j);
    }
  }

  // ----- the overlay loop -----

  /**
   * `do { count2 = initMapOverlay(mapOverlay); } while (count2 < 300);`, allowed at most `rounds`
   * rounds (the source loops without bound); each round's seed-cell loop has `tries` tries.
   */
  function OverlayRetry(draws: nat -> nat, pos: nat, tries: nat, rounds: nat): (r: Mask)
    ensures r.Mask? ==> r.area >= 300
    decreases rounds, 1
  {
    if rounds == 0 then NoMask(pos) else OverlayRound(draws, pos, tries, rounds)
  }

  /**
   * One round of the overlay loop: `initMapOverlay`; no seed cell ends the loop, an area of 300
   * or more is accepted, a smaller one is retried with one round fewer.
   */
  function OverlayRound(draws: nat -> nat, pos: nat, tries: nat, rounds: nat): (r: Mask)
    requires rounds > 0
    ensures r.Mask? ==> r.area >= 300
    decreases rounds, 0
  {
    match MapOverlay(draws, pos, tries)
    case NoMask(q) => NoMask(q)
    case Mask(o, a, q) => if a >= 300 then Mask(o, a, q) else OverlayRetry(draws, q, tries, rounds - 1)
  }

  /** One round of the overlay loop. */
  lemma OverlayRetryStep(draws: nat -> nat, pos: nat, tries: nat, rounds: nat)
    requires rounds > 0
    ensures var o := MapOverlay(draws, pos, tries);
      OverlayRetry(draws, pos, tries, rounds)
      == if o.NoMask? then o else if o.area >= 300 then o else OverlayRetry(draws, o.pos, tries, rounds - 1)
  {
    assert OverlayRetry(draws, pos, tries, rounds) == OverlayRound(draws, pos, tries, rounds);
  }

  /** One round of the overlay loop, `initMapOverlay`, judged against the `left` rounds the loop has left. */
  method OverlayAttempt(overlay: array2<int>, rng: Rng, tries: nat, ghost left: nat) returns (area: nat, seeded: bool)
    requires IsMap(overlay) && left > 0
    modifies overlay, rng
    ensures var r := OverlayRetry(rng.draws, old(rng.pos), tries, left);
      && (!seeded ==> r == NoMask(rng.pos))
      && (seeded && area >= 300 ==> r.Mask? && r.pos == rng.pos && r.tiles == Cells(overlay))
      && (seeded && area < 300 ==> r == OverlayRetry(rng.draws, rng.pos, tries, left - 1))
  {
    OverlayRetryStep(rng.draws, rng.pos, tries, left);
    area, seeded := InitMapOverlay(overlay, rng, tries);
  }

  /** The overlay loop on a grid array. */
  method OverlayLoop(overlay: array2<int>, rng: Rng, tries: nat, rounds: nat) returns (accepted: bool)
    requires IsMap(overlay)
    modifies overlay, rng
    ensures var r := OverlayRetry(rng.draws, old(rng.pos), tries, rounds);
      accepted == r.Mask? && rng.pos == r.pos && (accepted ==> Cells(overlay) == r.tiles)
  {
    ghost var p0 := rng.pos;
    var left := rounds;
    while left > 0
      invariant OverlayRetry(rng.draws, rng.pos, tries, left) == OverlayRetry(rng.draws, p0, tries, rounds)
      decreases left
    {
      var area, seeded := OverlayAttempt(overlay, rng, tries, left);
      if !seeded {
        return false;
      }
      if area >= 300 {
        return true;
      }
      left := left - 1;
    }
    return false;
  }

  // ----- the whole generator -----

  /** The number of draws the main noise loop over rows and columns 16..43 takes. */
  const MainNoiseDraws := 28 * 28

  /** The main grid before the fill: zeroed, noise over rows and columns 16..43, `condense(map, maptemp, 1)`, `renumber`. */
  function MainMask(draws: nat -> nat, pos: nat): Tiles
  {
    Renumbered(Condensed(Noise(draws, pos, 16, 44), Passes(1)))
  }

  /** A stage of the generator: the grid, the centre-tile count and the stream position, or stuck in a retry loop. */
  datatype Stage = Stage(tiles: Tiles, count: nat, pos: nat) | Stuck(pos: nat)

  /**
   * What `generateMap` does once the seed cell (x, y) holding 7 is found: fill its region with
   * 5, turn the remaining 7s back into 1, add edges, clean up, add centre tiles, then the closing
   * sweep.
   */
  function Shaped(m: Tiles, x: int, y: int, draws: nat -> nat, pos: nat): Stage
    requires OnGrid(x, y) && m[x][y] == 7
  {
    var c := Centred(m, x, y, draws, pos);
    var f := Finished(c.tiles);
    Stage(f.tiles, f.count, c.pos)
  }

  /** The grid and stream position after `addCenterTiles`, the last pass before the closing sweep. */
  function Centred(m: Tiles, x: int, y: int, draws: nat -> nat, pos: nat): Drawn
    requires OnGrid(x, y) && m[x][y] == 7
  {
    CentreTiles(CleanedUp(Edged(Unmarked(Fill(m, x, y, 5)))), draws, pos)
  }

  /** Everything `generateMap` does to its grid before the overlay loop: the main mask, the seed cell holding 7, then the shaping. */
  function Carved(draws: nat -> nat, pos: nat, tries: nat): Stage
  {
    var m := MainMask(draws, pos);
    match PickSeed(m, draws, pos + MainNoiseDraws, 7, tries)
    case GaveUp(q) => Stuck(q)
    case Found(x, y, q) => Shaped(m, x, y, draws, q)
  }

  /** `generateMap` on a grid value: carve the main grid, find an overlay of area 300 or more, merge it in. */
  function Generate(draws: nat -> nat, pos: nat, tries: nat, rounds: nat): Stage
  {
    match Carved(draws, pos, tries)
    case Stuck(q) => Stuck(q)
    case Stage(t, n, q) =>
      match OverlayRetry(draws, q, tries, rounds)
      case NoMask(q') => Stuck(q')
      case Mask(o, _, q') => Stage(Repaired(Combined(t, o)), n, q')
  }

  /** The start of `generateMap(map)`: zeroed, noise over rows and columns 16..43, one smoothing pass, renumbered. */
  method MainMaskInto(g: array2<int>, rng: Rng)
    requires IsMap(g)
    modifies g, rng
    ensures Cells(g) == MainMask(rng.draws, old(rng.pos)) && rng.pos == old(rng.pos) + MainNoiseDraws
  {
    var scratch := new int[Size, Size];
    Clear(scratch);
    SeedNoise(g, rng, 16, 44);
    Condense(g, scratch, 1);
    Renumber(g);
  }

  /** `generateMap(map)` from the flood fill of the seed cell to the closing sweep. */
  method ShapeMap(g: array2<int>, rng: Rng, x: int, y: int) returns (count: nat)
    requires IsMap(g) && OnGrid(x, y) && g[x, y] == 7
    modifies g, rng
    ensures var r := Shaped(old(Cells(g)), x, y, rng.draws, old(rng.pos));
      Cells(g) == r.tiles && count == r.count && rng.pos == r.pos
  {
    FloodFill(g, x, y, 5);
    Unmark(g);
    AddEdges(g);
    CleanUp(g);
    AddCenterTiles(g, rng);
    count := Finish(g);
  }

  /** `generateMap(map)` up to the overlay loop; `ok` is false only when the seed-cell loop ran out of tries. */
  method CarveMap(g: array2<int>, rng: Rng, tries: nat) returns (count: nat, ok: bool)
    requires IsMap(g)
    modifies g, rng
    ensures var r := Carved(rng.draws, old(rng.pos), tries);
      ok == r.Stage? && rng.pos == r.pos && (ok ==> Cells(g) == r.tiles && count == r.count)
  {
    MainMaskInto(g, rng);
    var pick := PickSeedIn(g, rng, 7, tries);
    if pick.GaveUp? {
      return 0, false;
    }
    count := ShapeMap(g, rng, pick.x, pick.y);
    ok := true;
  }

  /**
   * `generateMap(map)`: `done` is false only when a retry loop ran out of its budget; otherwise
   * the grid is the generated map and `count` the number of centre tiles.
   */
  method GenerateMap(g: array2<int>, rng: Rng, tries: nat, rounds: nat) returns (count: nat, done: bool)
    requires IsMap(g)
    modifies g, rng
    ensures var r := Generate(rng.draws, old(rng.pos), tries, rounds);
      done == r.Stage? && rng.pos == r.pos && (done ==> Cells(g) == r.tiles && count == r.count)
  {
    var carved;
    count, carved := CarveMap(g, rng, tries);
    if !carved {
      return 0, false;
    }
    var overlay := new int[Size, Size];
    var accepted := OverlayLoop(overlay, rng, tries, rounds);
    if !accepted {
      return count, false;
    }
    Combine(g, overlay);
    CleanEdgesPostCombine(g);
    done := true;
  }

  // ----- what the generator guarantees end to end -----

  /** Before the fill the main grid holds only 1 (open) and 7 (cave). */
  lemma MainMaskCodes(draws: nat -> nat, pos: nat)
    ensures forall i, j :: OnGrid(i, j) ==> MainMask(draws, pos)[i][j] in {1, 7}
  {
    var noise := Noise(draws, pos, 16, 44);
    NoiseShape(draws, pos, 16, 44);
    CondensedShape(noise, Passes(1));
  }

  /**
   * The primary platform: once the seed cell holding 7 is found, the fill turns into 5 exactly
   * the cells 4-connected to it through band cells holding 7; every other cell keeps its code.
   */
  lemma PlatformRegion(draws: nat -> nat, pos: nat, tries: nat)
    ensures var m := MainMask(draws, pos); var k := PickSeed(m, draws, pos + MainNoiseDraws, 7, tries);
      k.Found? ==> forall i, j :: OnGrid(i, j) ==>
        (Fill(m, k.x, k.y, 5)[i][j] == 5 <==> Connected(m, 7, (k.x, k.y), (i, j)))
        && (Fill(m, k.x, k.y, 5)[i][j] != 5 ==> Fill(m, k.x, k.y, 5)[i][j] == m[i][j])
  {
    var m := MainMask(draws, pos);
    var k := PickSeed(m, draws, pos + MainNoiseDraws, 7, tries);
    if k.Found? {
      MainMaskCodes(draws, pos);
      FillIsComponent(m, k.x, k.y, 5);
    }
  }

  /** From a mask of 1s and 7s, the passes up to `addCenterTiles` leave only codes 0 to 7. */
  lemma CentredCodes(m: Tiles, x: int, y: int, draws: nat -> nat, pos: nat)
    requires OnGrid(x, y) && m[x][y] == 7
    requires forall i, j :: OnGrid(i, j) ==> m[i][j] in {1, 7}
    ensures PrimaryCodes(Centred(m, x, y, draws, pos).tiles)
  {
    FillIsComponent(m, x, y, 5);
    RefinedCodes(Fill(m, x, y, 5));
    CentreTilesCodes(CleanedUp(Edged(Unmarked(Fill(m, x, y, 5)))), draws, pos);
  }

  /** The 7 to 1 sweep, `addEdges` and `cleanUp` take a grid of 1s, 5s and 7s into codes 0 to 7. */
  lemma RefinedCodes(f: Tiles)
    requires forall i, j :: OnGrid(i, j) ==> f[i][j] in {1, 5, 7}
    ensures PrimaryCodes(CleanedUp(Edged(Unmarked(f))))
  {
    forall i, j | OnGrid(i, j)
      ensures 0 <= CleanedUp(Edged(Unmarked(f)))[i][j] <= 7
    {
      assert Unmarked(f)[i][j] in {1, 5, 7};
      assert Edged(Unmarked(f))[i][j] in {1, 2, 5, 6, 7};
    }
  }

  /** `addCenterTiles` only writes 3s and 4s, so it keeps a grid within codes 0 to 7. */
  lemma CentreTilesCodes(c: Tiles, draws: nat -> nat, pos: nat)
    requires PrimaryCodes(c)
    ensures PrimaryCodes(CentreTiles(c, draws, pos).tiles)
  {
    forall i, j | OnGrid(i, j)
      ensures 0 <= CentreTiles(c, draws, pos).tiles[i][j] <= 7
    {
      CentreTilesAt(c, draws, pos, i, j);
    }
  }

  /** The closing sweep only writes 5s, so it keeps a grid within codes 0 to 7. */
  lemma FinishedCodes(s: Tiles)
    requires PrimaryCodes(s)
    ensures PrimaryCodes(Finished(s).tiles)
  {
    forall i, j | OnGrid(i, j)
      ensures 0 <= Finished(s).tiles[i][j] <= 7
    {
      FinishedAt(s, i, j);
    }
  }

  /** Before the overlay is merged in, the main grid holds only codes 0 to 7. */
  lemma CarvedCodes(draws: nat -> nat, pos: nat, tries: nat)
    ensures var c := Carved(draws, pos, tries); c.Stage? ==> PrimaryCodes(c.tiles)
  {
    var m := MainMask(draws, pos);
    var k := PickSeed(m, draws, pos + MainNoiseDraws, 7, tries);
    if k.Found? {
      MainMaskCodes(draws, pos);
      CentredCodes(m, k.x, k.y, draws, k.pos);
      FinishedCodes(Centred(m, k.x, k.y, draws, k.pos).tiles);
    }
  }

  /**
   * The count `generateMap` returns is the number of 3s and 4s in rows and columns 0..58 of the
   * grid `addCenterTiles` left, and the carving gets stuck only when the seed-cell loop does.
   */
  lemma CarvedCount(draws: nat -> nat, pos: nat, tries: nat)
    ensures var m := MainMask(draws, pos); var k := PickSeed(m, draws, pos + MainNoiseDraws, 7, tries);
      var c := Carved(draws, pos, tries);
      && (c.Stage? <==> k.Found?)
      && (k.Found? ==> var t := Centred(m, k.x, k.y, draws, k.pos).tiles;
            c.count == |set i, j | 0 <= i < Size && 0 <= j < Size && i < Counted && j < Counted && t[i][j] in Centres :: (i, j)|)
  {
    var m := MainMask(draws, pos);
    var k := PickSeed(m, draws, pos + MainNoiseDraws, 7, tries);
    if k.Found? {
      FinishedCount(Centred(m, k.x, k.y, draws, k.pos).tiles);
    }
  }

  /**
   * `generateMap` end to end: it finishes only with an overlay of area 300 or more; the count is
   * the carved grid's; every cell ends with its carved code or its combined code, within 0 to 11;
   * and the merge never writes or overwrites a 0 or a 1.
   */
  lemma GeneratedMap(draws: nat -> nat, pos: nat, tries: nat, rounds: nat)
    ensures var c := Carved(draws, pos, tries); var r := Generate(draws, pos, tries, rounds);
      r.Stage? ==> c.Stage? && var o := OverlayRetry(draws, c.pos, tries, rounds);
        && o.Mask? && o.area >= 300 && r.count == c.count && r.pos == o.pos
        && forall i, j :: OnGrid(i, j) ==>
             && (r.tiles[i][j] == c.tiles[i][j] || r.tiles[i][j] == CombineCode(c.tiles[i][j], o.tiles[i][j]))
             && 0 <= r.tiles[i][j] <= 11
             && (c.tiles[i][j] in {0, 1} || r.tiles[i][j] in {0, 1} ==> r.tiles[i][j] == c.tiles[i][j])
  {
    var c := Carved(draws, pos, tries);
    if c.Stage? {
      var o := OverlayRetry(draws, c.pos, tries, rounds);
      if o.Mask? {
        CarvedCodes(draws, pos, tries);
        CombineMarks(c.tiles, o.tiles);
        RepairRestores(c.tiles, o.tiles);
        var r := Repaired(Combined(c.tiles, o.tiles));
        forall i, j | OnGrid(i, j)
          ensures 0 <= r[i][j] <= 11
        {
          assert Combined(c.tiles, o.tiles)[i][j] == CombineCode(c.tiles[i][j], o.tiles[i][j]);
        }
      }
    }
  }

  // ----- the solid border -----

  /** Rows and columns 0, 1, 59 and 60: the ring of the map outside the band the fill can reach. */
  predicate Ring(i: int, j: int)
  {
    OnGrid(i, j) && (i <= 1 || i >= Size - 2 || j <= 1 || j >= Size - 2)
  }

  /** Cells at least two rows or columns away from the main noise square, rows and columns 16..43. */
  predicate FarFromMask(i: int, j: int)
  {
    OnGrid(i, j) && !(15 <= i <= 44 && 15 <= j <= 44)
  }

  /** Outside the noise square the smoothing keeps every 0, so `renumber` makes the main grid 1 there. */
  lemma MainMaskOutside(draws: nat -> nat, pos: nat)
    ensures forall i, j :: OnGrid(i, j) && !InSquare(16, 44, i, j) ==> MainMask(draws, pos)[i][j] == 1
  {
    var noise := Noise(draws, pos, 16, 44);
    NoiseShape(draws, pos, 16, 44);
    CondensedZeroOutside(noise, Passes(1), 16, 44);
  }

  /** The fill only recolours 7s, which lie inside the noise square, so outside it the grid still holds 1 after the 7 to 1 sweep. */
  lemma UnmarkedOutside(m: Tiles, x: int, y: int)
    requires OnGrid(x, y) && m[x][y] == 7
    requires forall i, j :: OnGrid(i, j) && !InSquare(16, 44, i, j) ==> m[i][j] == 1
    ensures forall i, j :: OnGrid(i, j) && !InSquare(16, 44, i, j) ==> Unmarked(Fill(m, x, y, 5))[i][j] == 1
  {
    FillIsComponent(m, x, y, 5);
    forall i, j | OnGrid(i, j) && !InSquare(16, 44, i, j)
      ensures Unmarked(Fill(m, x, y, 5))[i][j] == 1
    {
      ConnectedHolds(m, 7, (x, y), (i, j));
    }
  }

  /**
   * The fill only recolours 7s, which lie inside the noise square, and far from that square no
   * 5 sits beside a cell for `addEdges` to see: there the grid after `cleanUp` holds 0 or 1.
   */
  lemma RefinedFar(m: Tiles, x: int, y: int)
    requires OnGrid(x, y) && m[x][y] == 7
    requires forall i, j :: OnGrid(i, j) && !InSquare(16, 44, i, j) ==> m[i][j] == 1
    ensures forall i, j :: FarFromMask(i, j) ==> CleanedUp(Edged(Unmarked(Fill(m, x, y, 5))))[i][j] in {0, 1}
  {
    var u := Unmarked(Fill(m, x, y, 5));
    UnmarkedOutside(m, x, y);
    forall i, j | FarFromMask(i, j)
      ensures CleanedUp(Edged(u))[i][j] in {0, 1}
    {
      assert j > 0 ==> u[i][j - 1] == 1;
      assert j < Size - 1 ==> u[i][j + 1] == 1;
      assert Edged(u)[i][j] == 1;
    }
  }

  /**
   * `addCenterTiles` writes nothing on the ring: each ring cell has its neighbour below or to
   * its right, which the sweep reads before rewriting it, far from the noise square and so
   * holding 0 or 1, or has that neighbour off the grid.
   */
  lemma CentredRing(m: Tiles, x: int, y: int, draws: nat -> nat, pos: nat)
    requires OnGrid(x, y) && m[x][y] == 7
    requires forall i, j :: OnGrid(i, j) && !InSquare(16, 44, i, j) ==> m[i][j] == 1
    ensures forall i, j :: Ring(i, j) ==> Centred(m, x, y, draws, pos).tiles[i][j] in {0, 1}
  {
    var s := CleanedUp(Edged(Unmarked(Fill(m, x, y, 5))));
    var r := CentreTiles(s, draws, pos);
    RefinedFar(m, x, y);
    forall i, j | Ring(i, j)
      ensures r.tiles[i][j] in {0, 1}
    {
      CentreTilesAt(s, draws, pos, i, j);
      if 0 < i < Size - 1 && 0 < j < Size - 1 {
        if i == 1 || i == Size - 2 {
          assert FarFromMask(i + 1, j);
        } else {
          assert FarFromMask(i, j + 1);
        }
      }
    }
  }

  /**
   * The closing sweep writes nothing on the ring: row 0 and column 0 are never filled, a cell of
   * row 1 has its right neighbour on the ring, a cell of column 1 its neighbour below, and
   * rows and columns 59 and 60 are not visited.
   */
  lemma FinishedRing(c: Tiles)
    requires forall i, j :: Ring(i, j) ==> c[i][j] in {0, 1}
    ensures forall i, j :: Ring(i, j) ==> Finished(c).tiles[i][j] in {0, 1}
  {
    forall i, j | Ring(i, j)
      ensures Finished(c).tiles[i][j] in {0, 1}
    {
      FinishedAt(c, i, j);
      if 0 < i < Counted && 0 < j < Counted {
        if i == 1 {
          assert Ring(i, j + 1);
        } else {
          assert Ring(i + 1, j);
        }
      }
    }
  }

  /** Before the overlay is merged in, the ring of the main grid holds only 0 and 1. */
  lemma CarvedRing(draws: nat -> nat, pos: nat, tries: nat)
    ensures var c := Carved(draws, pos, tries); c.Stage? ==> forall i, j :: Ring(i, j) ==> c.tiles[i][j] in {0, 1}
  {
    var m := MainMask(draws, pos);
    var k := PickSeed(m, draws, pos + MainNoiseDraws, 7, tries);
    if k.Found? {
      MainMaskOutside(draws, pos);
      CentredRing(m, k.x, k.y, draws, k.pos);
      FinishedRing(Centred(m, k.x, k.y, draws, k.pos).tiles);
    }
  }

  /**
   * The border of a generated map stays solid: rows and columns 0, 1, 59 and 60 hold no
   * platform, edge or centre code, only 0 and 1. This is also what makes the source's reads
   * past the grid's edges in `addEdges`, `addCenterTiles` and the closing sweep irrelevant.
   */
  lemma BorderSolid(draws: nat -> nat, pos: nat, tries: nat, rounds: nat)
    ensures var r := Generate(draws, pos, tries, rounds);
      r.Stage? ==> forall i, j :: Ring(i, j) ==> r.tiles[i][j] in {0, 1}
  {
    CarvedRing(draws, pos, tries);
    GeneratedMap(draws, pos, tries, rounds);
  }

  // ----- one structural region -----

  /** (i, j) holds a structural code, 2 or more: an edge, a platform or a centre tile, not 0 or 1. */
  predicate Built(s: Tiles, i: int, j: int)
  {
    OnGrid(i, j) && s[i][j] >= 2
  }

  /** `p` is a walk of orthogonal steps through structural cells of `s`. */
  ghost predicate BuiltPath(s: Tiles, p: seq<(int, int)>)
  {
    && |p| > 0
    && (forall k :: 0 <= k < |p| ==> Built(s, p[k].0, p[k].1))
    && (forall k :: 0 < k < |p| ==> Adjacent(p[k - 1], p[k]))
  }

  /** `b` is reached from `a` through structural cells, moving 4-directionally. */
  ghost predicate Linked(s: Tiles, a: (int, int), b: (int, int))
  {
    exists p :: BuiltPath(s, p) && p[0] == a && p[|p| - 1] == b
  }

  /** `o` is structural, and every structural cell of `s` is reached from it. */
  ghost predicate RegionFrom(s: Tiles, o: (int, int))
  {
    Built(s, o.0, o.1) && forall i, j :: Built(s, i, j) ==> Linked(s, o, (i, j))
  }

  /** A structural cell above, below, left or right of (i, j). */
  predicate NextToBuilt(s: Tiles, i: int, j: int)
  {
    Built(s, i - 1, j) || Built(s, i + 1, j) || Built(s, i, j - 1) || Built(s, i, j + 1)
  }

  /**
   * A pass that keeps every structural cell structural, and makes a cell structural only next to
   * a cell that already was, keeps the structural region in one piece around `o`.
   */
  lemma GrowRegion(a: Tiles, b: Tiles, o: (int, int))
    requires RegionFrom(a, o)
    requires forall i, j :: Built(a, i, j) ==> Built(b, i, j)
    requires forall i, j :: Built(b, i, j) && !Built(a, i, j) ==> NextToBuilt(a, i, j)
    ensures RegionFrom(b, o)
  {
    forall i, j | Built(b, i, j)
      ensures Linked(b, o, (i, j))
    {
      if Built(a, i, j) {
        var p :| BuiltPath(a, p) && p[0] == o && p[|p| - 1] == (i, j);
        LiftPath(a, b, p);
      } else {
        var n := BuiltNeighbour(a, i, j);
        var p :| BuiltPath(a, p) && p[0] == o && p[|p| - 1] == n;
        LiftPath(a, b, p);
        StepPath(b, p, (i, j));
      }
    }
  }

  /** A walk through structural cells of `a` is one in `b` when `b` keeps them structural. */
  lemma LiftPath(a: Tiles, b: Tiles, p: seq<(int, int)>)
    requires BuiltPath(a, p)
    requires forall i, j :: Built(a, i, j) ==> Built(b, i, j)
    ensures BuiltPath(b, p)
  {
    forall k | 0 <= k < |p|
      ensures Built(b, p[k].0, p[k].1)
    {
      assert Built(a, p[k].0, p[k].1);
    }
  }

  /** A walk extends by one step to a structural neighbour of its last cell. */
  lemma StepPath(s: Tiles, p: seq<(int, int)>, c: (int, int))
    requires BuiltPath(s, p) && Built(s, c.0, c.1) && Adjacent(p[|p| - 1], c)
    ensures BuiltPath(s, p + [c]) && (p + [c])[0] == p[0]
  {
    var q := p + [c];
    forall k | 0 < k < |q|
      ensures Adjacent(q[k - 1], q[k])
    {
      if k < |p| {
        assert q[k - 1] == p[k - 1] && q[k] == p[k];
      }
    }
  }

  /** A structural neighbour of (i, j), when there is one. */
  lemma BuiltNeighbour(a: Tiles, i: int, j: int) returns (n: (int, int))
    requires NextToBuilt(a, i, j)
    ensures Built(a, n.0, n.1) && Adjacent(n, (i, j))
  {
    n := if Built(a, i - 1, j) then (i - 1, j)
      else if Built(a, i + 1, j) then (i + 1, j)
      else if Built(a, i, j - 1) then (i, j - 1)
      else (i, j + 1);
  }

  /** A walk run backwards is a walk. */
  lemma ReversePath(s: Tiles, p: seq<(int, int)>) returns (r: seq<(int, int)>)
    requires BuiltPath(s, p)
    ensures BuiltPath(s, r) && r[0] == p[|p| - 1] && r[|r| - 1] == p[0]
  {
    r := seq(|p|, k requires 0 <= k < |p| => p[|p| - 1 - k]);
    forall k | 0 < k < |r|
      ensures Adjacent(r[k - 1], r[k])
    {
      assert Adjacent(p[|p| - 1 - k], p[|p| - k]);
    }
  }

  /** Two structural cells both reached from `o` are reached from each other: the region is one piece. */
  lemma RegionIsOne(s: Tiles, o: (int, int))
    requires RegionFrom(s, o)
    ensures forall a: (int, int), b: (int, int) :: Built(s, a.0, a.1) && Built(s, b.0, b.1) ==> Linked(s, a, b)
  {
    forall a: (int, int), b: (int, int) | Built(s, a.0, a.1) && Built(s, b.0, b.1)
      ensures Linked(s, a, b)
    {
      var p :| BuiltPath(s, p) && p[0] == o && p[|p| - 1] == a;
      var q :| BuiltPath(s, q) && q[0] == o && q[|q| - 1] == b;
      var r := ReversePath(s, p);
      JoinPaths(s, r, q);
    }
  }

  /** Two walks, the second starting where the first ends, join into one. */
  lemma JoinPaths(s: Tiles, r: seq<(int, int)>, q: seq<(int, int)>)
    requires BuiltPath(s, r) && BuiltPath(s, q) && r[|r| - 1] == q[0]
    ensures Linked(s, r[0], q[|q| - 1])
  {
    var w := r + q[1..];
    forall k | 0 < k < |w|
      ensures Adjacent(w[k - 1], w[k])
    {
      if k < |r| {
        assert w[k - 1] == r[k - 1] && w[k] == r[k];
      } else {
        assert w[k - 1] == q[k - |r|] && w[k] == q[k - |r| + 1];
      }
    }
    assert BuiltPath(s, w) && w[0] == r[0] && w[|w| - 1] == q[|q| - 1];
  }

  /**
   * After the fill and the 7 to 1 sweep the structural cells are exactly the seed's component,
   * each reached from the seed by a walk of the fill.
   */
  lemma FilledRegion(m: Tiles, x: int, y: int)
    requires OnGrid(x, y) && m[x][y] == 7
    requires forall i, j :: OnGrid(i, j) ==> m[i][j] in {1, 7}
    requires forall i, j :: OnGrid(i, j) && !InSquare(16, 44, i, j) ==> m[i][j] == 1
    ensures RegionFrom(Unmarked(Fill(m, x, y, 5)), (x, y))
  {
    var u := Unmarked(Fill(m, x, y, 5));
    FillIsComponent(m, x, y, 5);
    assert IsPath(m, 7, [(x, y)]);
    forall i, j | Built(u, i, j)
      ensures Linked(u, (x, y), (i, j))
    {
      assert Connected(m, 7, (x, y), (i, j));
      var p: seq<(int, int)> :| IsPath(m, 7, p) && p[0] == (x, y) && p[|p| - 1] == (i, j);
      FillWalkBuilt(m, x, y, p);
    }
  }

  /** Every cell on a walk of 7s from the seed is filled, so a walk of the fill is a walk of structural cells. */
  lemma FillWalkBuilt(m: Tiles, x: int, y: int, p: seq<(int, int)>)
    requires OnGrid(x, y) && m[x][y] == 7
    requires IsPath(m, 7, p) && p[0] == (x, y)
    ensures BuiltPath(Unmarked(Fill(m, x, y, 5)), p)
  {
    var u := Unmarked(Fill(m, x, y, 5));
    FillIsComponent(m, x, y, 5);
    forall k | 0 <= k < |p|
      ensures Built(u, p[k].0, p[k].1)
    {
      assert IsPath(m, 7, p[..k + 1]);
      assert Connected(m, 7, (x, y), p[k]);
    }
  }

  /** `addEdges` only turns a 1 into a structural code beside a 5, and keeps every other cell. */
  lemma EdgedGrows(u: Tiles, o: (int, int))
    requires RegionFrom(u, o)
    ensures RegionFrom(Edged(u), o)
  {
    GrowRegion(u, Edged(u), o);
  }

  /** `cleanUp` only turns 1s into 0s, so the structural cells stay as they are. */
  lemma CleanedKeeps(e: Tiles, o: (int, int))
    requires RegionFrom(e, o)
    ensures RegionFrom(CleanedUp(e), o)
  {
    GrowRegion(e, CleanedUp(e), o);
  }

  /** `addCenterTiles` writes 3 or 4 only on a cell whose neighbour below is structural. */
  lemma CentredGrows(s: Tiles, draws: nat -> nat, pos: nat, o: (int, int))
    requires RegionFrom(s, o)
    ensures RegionFrom(CentreTiles(s, draws, pos).tiles, o)
  {
    var r := CentreTiles(s, draws, pos).tiles;
    forall i, j | OnGrid(i, j)
      ensures (Built(s, i, j) ==> Built(r, i, j)) && (Built(r, i, j) && !Built(s, i, j) ==> NextToBuilt(s, i, j))
    {
      CentreTilesAt(s, draws, pos, i, j);
    }
    GrowRegion(s, r, o);
  }

  /** The closing sweep writes 5 only on a cell whose neighbour below holds 5. */
  lemma FinishedGrows(c: Tiles, o: (int, int))
    requires RegionFrom(c, o)
    ensures RegionFrom(Finished(c).tiles, o)
  {
    var r := Finished(c).tiles;
    forall i, j | OnGrid(i, j)
      ensures (Built(c, i, j) ==> Built(r, i, j)) && (Built(r, i, j) && !Built(c, i, j) ==> NextToBuilt(c, i, j))
    {
      FinishedAt(c, i, j);
    }
    GrowRegion(c, r, o);
  }

  /** Before the overlay is merged in, every structural cell is reached from the seed cell through structural cells. */
  lemma CarvedRegion(draws: nat -> nat, pos: nat, tries: nat)
    ensures var m := MainMask(draws, pos); var k := PickSeed(m, draws, pos + MainNoiseDraws, 7, tries);
      var c := Carved(draws, pos, tries);
      c.Stage? ==> k.Found? && RegionFrom(c.tiles, (k.x, k.y))
  {
    var m := MainMask(draws, pos);
    var k := PickSeed(m, draws, pos + MainNoiseDraws, 7, tries);
    if k.Found? {
      var o := (k.x, k.y);
      MainMaskCodes(draws, pos);
      MainMaskOutside(draws, pos);
      FilledRegion(m, k.x, k.y);
      var u := Unmarked(Fill(m, k.x, k.y, 5));
      EdgedGrows(u, o);
      CleanedKeeps(Edged(u), o);
      CentredGrows(CleanedUp(Edged(u)), draws, k.pos, o);
      FinishedGrows(Centred(m, k.x, k.y, draws, k.pos).tiles, o);
    }
  }

  /**
   * The structural cells of a generated map form one 4-connected region: each is reached from
   * the seed cell, and from every other structural cell, through structural cells. The merge
   * keeps the cells holding 0 and 1, so it keeps the region.
   */
  lemma StructuralConnected(draws: nat -> nat, pos: nat, tries: nat, rounds: nat)
    ensures var k := PickSeed(MainMask(draws, pos), draws, pos + MainNoiseDraws, 7, tries);
      var r := Generate(draws, pos, tries, rounds);
      r.Stage? ==> (
        && k.Found? && RegionFrom(r.tiles, (k.x, k.y))
        && forall a: (int, int), b: (int, int) :: Built(r.tiles, a.0, a.1) && Built(r.tiles, b.0, b.1) ==> Linked(r.tiles, a, b))
  {
    var k := PickSeed(MainMask(draws, pos), draws, pos + MainNoiseDraws, 7, tries);
    var c := Carved(draws, pos, tries);
    var r := Generate(draws, pos, tries, rounds);
    if r.Stage? {
      CarvedRegion(draws, pos, tries);
      CarvedCodes(draws, pos, tries);
      GeneratedMap(draws, pos, tries, rounds);
      GrowRegion(c.tiles, r.tiles, (k.x, k.y));
      RegionIsOne(r.tiles, (k.x, k.y));
    }
  }
}
