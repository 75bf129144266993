/**
 * The contextual refiner of the primary grid: `renumber`, `addEdges`, `cleanUp` and
 * `addCenterTiles`, each a single in-place sweep of the grid.
 */
module Refinement {
  import opened Grid
  import opened Random

  // ----- renumber -----

  /** `renumber` on one cell: 1 becomes 7, 0 becomes 1, every other code is kept. */
  function Recode(c: int): (r: int)
    ensures r != 0
    ensures r == 1 <==> c == 0
    ensures r == 7 <==> c == 1 || c == 7
    ensures c != 0 && c != 1 ==> r == c
  {
    if c == 1 then 7 else if c == 0 then 1 else c
  }

  function Renumbered(s: Tiles): Tiles
  {
    seq(Size, i requires 0 <= i < Size => seq(Size, j requires 0 <= j < Size => Recode(s[i][j])))
  }

  /** `renumber`: recodes every cell of the grid. */
  method Renumber(g: array2<int>)
    requires IsMap(g)
    modifies g
    ensures Cells(g) == Renumbered(old(Cells(g)))
  {
    ghost var s := Cells(g);
    for i := 0 to Size
      invariant forall a, b :: OnGrid(a, b) ==> g[a, b] == if a < i then Recode(s[a][b]) else s[a][b]
    {
      for j := 0 to Size
        invariant forall a, b :: OnGrid(a, b) ==>
          g[a, b] == if a < i || (a == i && b < j) then Recode(s[a][b]) else s[a][b]
      {
        if g[i, j] == 1 {
          g[i, j] := 7;
        } else if g[i, j] == 0 {
          g[i, j] := 1;
        }
      }
    }
    SameTiles(Cells(g), Renumbered(s));
  }

  // ----- addEdges -----

  /** The j-1 neighbour holds a platform cell (5); a read before column 0 finds none. */
  predicate FiveLeft(s: Tiles, i: int, j: int)
    requires OnGrid(i, j)
  {
    j > 0 && s[i][j - 1] == 5
  }

  /** The j+1 neighbour holds a platform cell (5); a read past column 60 finds none. */
  predicate FiveRight(s: Tiles, i: int, j: int)
    requires OnGrid(i, j)
  {
    j < Size - 1 && s[i][j + 1] == 5
  }

  /**
   * `addEdges` on one cell, judged on `s`: a 1 with a 5 only at j-1 becomes 2, with 5s on both
   * sides becomes 5, with a 5 only at j+1 becomes 6; every other cell is kept.
   */
  function EdgeCode(s: Tiles, i: int, j: int): int
    requires OnGrid(i, j)
  {
    if s[i][j] != 1 then s[i][j]
    else if FiveLeft(s, i, j) then (if !FiveRight(s, i, j) then 2 else 5)
    else if FiveRight(s, i, j) then 6
    else 1
  }

  function Edged(s: Tiles): Tiles
  {
    seq(Size, i requires 0 <= i < Size => seq(Size, j requires 0 <= j < Size => EdgeCode(s, i, j)))
  }

  /**
   * `addEdges`: the sweep rewrites in place and so reads the j-1 neighbour after its own
   * rewrite, yet the result is the synchronous rule applied to the grid as it was: that
   * neighbour can only have turned into a 5 when (i, j) itself held a 5.
   */
  method AddEdges(g: array2<int>)
    requires IsMap(g)
    modifies g
    ensures Cells(g) == Edged(old(Cells(g)))
  {
    ghost var s := Cells(g);
    for i := 0 to Size
      invariant forall a, b :: OnGrid(a, b) ==> g[a, b] == if a < i then EdgeCode(s, a, b) else s[a][b]
    {
      for j := 0 to Size
        invariant forall a, b :: OnGrid(a, b) ==>
          g[a, b] == if a < i || (a == i && b < j) then EdgeCode(s, a, b) else s[a][b]
      {
        if g[i, j] == 1 {
          assert j > 0 ==> (g[i, j - 1] == 5 <==> s[i][j - 1] == 5);
          if j > 0 && g[i, j - 1] == 5 {
            if !(j < Size - 1 && g[i, j + 1] == 5) {
              g[i, j] := 2;
            } else {
              g[i, j] := 5;
            }
          } else if j < Size - 1 && g[i, j + 1] == 5 {
            g[i, j] := 6;
          }
        }
      }
    }
    SameTiles(Cells(g), Edged(s));
  }

  /**
   * After `addEdges` no cell holding 1 has a 5 beside it in its row, so a second sweep
   * changes nothing.
   */
  lemma EdgedSettled(s: Tiles)
    ensures forall i, j :: OnGrid(i, j) && Edged(s)[i][j] == 1 ==> !FiveLeft(Edged(s), i, j) && !FiveRight(Edged(s), i, j)
    ensures Edged(Edged(s)) == Edged(s)
  {
    var e := Edged(s);
    forall i, j | OnGrid(i, j) && e[i][j] == 1
      ensures !FiveLeft(e, i, j) && !FiveRight(e, i, j)
    {
      assert s[i][j] == 1 && !FiveLeft(s, i, j) && !FiveRight(s, i, j);
      if j > 0 {
        assert e[i][j - 1] == EdgeCode(s, i, j - 1);
      }
      if j < Size - 1 {
        assert e[i][j + 1] == EdgeCode(s, i, j + 1);
      }
    }
    SameTiles(Edged(e), e);
  }

  // ----- cleanUp -----

  /** A 1 in rows and columns 1..59 whose four orthogonal neighbours all hold 0 or 1. */
  predicate Isolated(s: Tiles, i: int, j: int)
    requires OnGrid(i, j)
  {
    && 1 <= i < Size - 1 && 1 <= j < Size - 1
    && s[i][j] == 1 && s[i - 1][j] < 2 && s[i + 1][j] < 2 && s[i][j - 1] < 2 && s[i][j + 1] < 2
  }

  /** `cleanUp` judged on `s`: every isolated 1 becomes 0. */
  function CleanedUp(s: Tiles): Tiles
  {
    seq(Size, i requires 0 <= i < Size =>
      seq(Size, j requires 0 <= j < Size => if Isolated(s, i, j) then 0 else s[i][j]))
  }

  /**
   * `cleanUp`: the sweep rewrites in place, but a rewritten neighbour went from 1 to 0 and
   * still counts as below 2, so the result is the synchronous rule on the grid as it was.
   */
  method CleanUp(g: array2<int>)
    requires IsMap(g)
    modifies g
    ensures Cells(g) == CleanedUp(old(Cells(g)))
  {
    ghost var s := Cells(g);
    for i := 1 to Size - 1
      invariant forall a, b :: OnGrid(a, b) ==>
        g[a, b] == if a < i && Isolated(s, a, b) then 0 else s[a][b]
    {
      CleanUpRow(g, s, i);
    }
    SameTiles(Cells(g), CleanedUp(s));
  }

  /** Row `i` of the `cleanUp` sweep, with the rows above it already cleaned. */
  method CleanUpRow(g: array2<int>, ghost s: Tiles, i: int)
    requires IsMap(g) && 1 <= i < Size - 1
    requires forall a, b :: OnGrid(a, b) ==> g[a, b] == if a < i && Isolated(s, a, b) then 0 else s[a][b]
    modifies g
    ensures forall a, b :: OnGrid(a, b) ==> g[a, b] == if a <= i && Isolated(s, a, b) then 0 else s[a][b]
  {
    for j := 1 to Size - 1
      invariant forall a, b :: OnGrid(a, b) ==>
        g[a, b] == if (a < i || (a == i && b < j)) && Isolated(s, a, b) then 0 else s[a][b]
    {
      assert g[i - 1, j] < 2 <==> s[i - 1][j] < 2;
      assert g[i, j - 1] < 2 <==> s[i][j - 1] < 2;
      if g[i, j] == 1 && g[i - 1, j] < 2 && g[i + 1, j] < 2 && g[i, j - 1] < 2 && g[i, j + 1] < 2 {
        g[i, j] := 0;
      }
    }
  }

  /** After `cleanUp` no isolated 1 is left, so a second sweep changes nothing. */
  lemma CleanedUpSettled(s: Tiles)
    ensures forall i, j :: OnGrid(i, j) ==> !Isolated(CleanedUp(s), i, j)
    ensures CleanedUp(CleanedUp(s)) == CleanedUp(s)
  {
    var c := CleanedUp(s);
    forall i, j | OnGrid(i, j)
      ensures !Isolated(c, i, j)
    {
      if 1 <= i < Size - 1 && 1 <= j < Size - 1 && c[i][j] == 1 {
        assert !Isolated(s, i, j);
        assert c[i - 1][j] == (if Isolated(s, i - 1, j) then 0 else s[i - 1][j]);
        assert c[i + 1][j] == (if Isolated(s, i + 1, j) then 0 else s[i + 1][j]);
        assert c[i][j - 1] == (if Isolated(s, i, j - 1) then 0 else s[i][j - 1]);
        assert c[i][j + 1] == (if Isolated(s, i, j + 1) then 0 else s[i][j + 1]);
      }
    }
    SameTiles(CleanedUp(c), c);
  }

  // ----- addCenterTiles -----

  /** A neighbour code `addCenterTiles` accepts: a platform cell (5) or a centre tile (3, 4). */
  predicate Structural(c: int)
  {
    c == 5 || c == 3 || c == 4
  }

  /** All four orthogonal neighbours of (i, j) are structural in `s`; a read off the grid never is. */
  predicate Surrounded(s: Tiles, i: int, j: int)
    requires OnGrid(i, j)
  {
    && 0 < i < Size - 1 && 0 < j < Size - 1
    && Structural(s[i - 1][j]) && Structural(s[i + 1][j]) && Structural(s[i][j - 1]) && Structural(s[i][j + 1])
  }

  /** The centre tile a draw selects: 3 when the draw modulo 12 exceeds 2, otherwise 4. */
  function CentreCode(d: nat): (c: int)
    ensures c == 3 <==> d % 12 > 2
    ensures c == 4 <==> d % 12 <= 2
  {
    if d % 12 > 2 then 3 else 4
  }

  /** A grid together with the position of the random stream. */
  datatype Drawn = Drawn(tiles: Tiles, pos: nat)

  /** The sweep's visit to the cell with flat index `k`, judged on the grid as it is at that moment. */
  function CentreStep(d: Drawn, draws: nat -> nat, k: int): Drawn
    requires 0 <= k < Area
  {
    var i, j := k / 61, k % 61;
    if Surrounded(d.tiles, i, j) then Drawn(Set(d.tiles, i, j, CentreCode(draws(d.pos))), d.pos + 1) else d
  }

  /** Grid and stream position once the sweep has visited the first `k` cells in row-major order. */
  function CentreSweep(s: Tiles, draws: nat -> nat, pos: nat, k: int): Drawn
    requires 0 <= k <= Area
  {
    if k == 0 then Drawn(s, pos) else CentreStep(CentreSweep(s, draws, pos, k - 1), draws, k - 1)
  }

  /** `addCenterTiles` on a grid value, drawing from `draws` at position `pos`. */
  function CentreTiles(s: Tiles, draws: nat -> nat, pos: nat): Drawn
  {
    CentreSweep(s, draws, pos, Area)
  }

  /** The sweep's visit to cell (i, j) comes right after those of all cells before it in row-major order. */
  lemma CentreSweepStep(s: Tiles, draws: nat -> nat, pos: nat, i: int, j: int)
    requires OnGrid(i, j)
    ensures 0 <= Index(i, j) < Area && Index(i, j) + 1 == Index(i, j + 1)
    ensures var d, e := CentreSweep(s, draws, pos, Index(i, j)), CentreSweep(s, draws, pos, Index(i, j) + 1);
      && e.tiles == (if Surrounded(d.tiles, i, j) then Set(d.tiles, i, j, CentreCode(draws(d.pos))) else d.tiles)
      && e.pos == (if Surrounded(d.tiles, i, j) then d.pos + 1 else d.pos)
  {
    IndexCell(i, j);
  }

  /**
   * The test the sweep applies at (i, j), stated on the start grid `s` and the final grid `t`:
   * the neighbours above and to the left were visited before (i, j) and hold their final
   * codes, those below and to the right are visited after it and still hold their first.
   */
  predicate SeenSurrounded(t: Tiles, s: Tiles, i: int, j: int)
    requires OnGrid(i, j)
  {
    && 0 < i < Size - 1 && 0 < j < Size - 1
    && Structural(t[i - 1][j]) && Structural(s[i + 1][j]) && Structural(t[i][j - 1]) && Structural(s[i][j + 1])
  }

  /** How many cells before flat index `k` pass the sweep's test, each of them drawing once. */
  function DrawsBefore(t: Tiles, s: Tiles, k: int): nat
    requires 0 <= k <= Area
  {
    if k == 0 then 0
    else DrawsBefore(t, s, k - 1) + (if SeenSurrounded(t, s, (k - 1) / 61, (k - 1) % 61) then 1 else 0)
  }

  /** Cells the sweep has not reached yet hold their first codes. */
  lemma {:induction false} SweepUnvisited(s: Tiles, draws: nat -> nat, pos: nat, k: int)
    requires 0 <= k <= Area
    ensures forall a, b :: OnGrid(a, b) && Index(a, b) >= k ==> CentreSweep(s, draws, pos, k).tiles[a][b] == s[a][b]
    decreases k
  {
    if k > 0 {
      SweepUnvisited(s, draws, pos, k - 1);
      CellOf(k - 1);
    }
  }

  /** Cells the sweep has passed are never rewritten again. */
  lemma {:induction false} SweepVisited(s: Tiles, draws: nat -> nat, pos: nat, k: int, m: int)
    requires 0 <= k <= m <= Area
    ensures forall a, b :: OnGrid(a, b) && Index(a, b) < k ==>
      CentreSweep(s, draws, pos, m).tiles[a][b] == CentreSweep(s, draws, pos, k).tiles[a][b]
    decreases m - k
  {
    if k < m {
      SweepVisited(s, draws, pos, k, m - 1);
      CellOf(m - 1);
    }
  }

  /** What the sweep sees when it reaches (i, j), in terms of the start and the final grid. */
  lemma SweepSees(s: Tiles, draws: nat -> nat, pos: nat, i: int, j: int)
    requires OnGrid(i, j)
    ensures 0 <= Index(i, j) < Area
    ensures var d := CentreSweep(s, draws, pos, Index(i, j));
      d.tiles[i][j] == s[i][j] && (Surrounded(d.tiles, i, j) <==> SeenSurrounded(CentreTiles(s, draws, pos).tiles, s, i, j))
  {
    IndexCell(i, j);
    SweepUnvisited(s, draws, pos, Index(i, j));
    SweepVisited(s, draws, pos, Index(i, j), Area);
  }

  /** The stream has advanced once for every cell visited so far that passed the test. */
  lemma {:induction false} SweepDraws(s: Tiles, draws: nat -> nat, pos: nat, k: int)
    requires 0 <= k <= Area
    ensures CentreSweep(s, draws, pos, k).pos == pos + DrawsBefore(CentreTiles(s, draws, pos).tiles, s, k)
    decreases k
  {
    if k > 0 {
      SweepDraws(s, draws, pos, k - 1);
      SweepDrawsStep(s, draws, pos, k - 1);
    }
  }

  /** The visit to the cell with flat index `k` draws once exactly when the cell passes the sweep's test. */
  lemma SweepDrawsStep(s: Tiles, draws: nat -> nat, pos: nat, k: int)
    requires 0 <= k < Area
    ensures CentreSweep(s, draws, pos, k + 1).pos
      == CentreSweep(s, draws, pos, k).pos + if SeenSurrounded(CentreTiles(s, draws, pos).tiles, s, k / 61, k % 61) then 1 else 0
  {
    CellOf(k);
    SweepSees(s, draws, pos, k / 61, k % 61);
  }

  /**
   * `addCenterTiles` on every cell: a cell whose four neighbours, as the sweep saw them, are
   * all structural becomes the centre tile of the next unused draw, the draws being consumed
   * one per such cell in row-major order; every other cell keeps its code, and the stream
   * advances by exactly the number of such cells.
   */
  lemma CentreTilesAt(s: Tiles, draws: nat -> nat, pos: nat, i: int, j: int)
    requires OnGrid(i, j)
    ensures 0 <= Index(i, j) < Area
    ensures var r := CentreTiles(s, draws, pos);
      r.tiles[i][j] == if SeenSurrounded(r.tiles, s, i, j) then CentreCode(draws(pos + DrawsBefore(r.tiles, s, Index(i, j)))) else s[i][j]
    ensures var r := CentreTiles(s, draws, pos); r.pos == pos + DrawsBefore(r.tiles, s, Area)
  {
    IndexCell(i, j);
    SweepSees(s, draws, pos, i, j);
    SweepVisited(s, draws, pos, Index(i, j) + 1, Area);
    CentreSweepStep(s, draws, pos, i, j);
    SweepDraws(s, draws, pos, Index(i, j));
    SweepDraws(s, draws, pos, Area);
  }

  /** `addCenterTiles`: one in-place row-major sweep of the whole grid. */
  method AddCenterTiles(g: array2<int>, rng: Rng)
    requires IsMap(g)
    modifies g, rng
    ensures var d := CentreTiles(old(Cells(g)), rng.draws, old(rng.pos)); Cells(g) == d.tiles && rng.pos == d.pos
  {
    ghost var s := Cells(g);
    ghost var p0 := rng.pos;
    for i := 0 to Size
      invariant var d := CentreSweep(s, rng.draws, p0, Index(i, 0)); Cells(g) == d.tiles && rng.pos == d.pos
    {
      CentreRow(g, rng, s, p0, i);
    }
    assert Index(Size, 0) == Area;
  }

  /** Row `i` of the sweep: from the sweep's state before the row to its state before row `i + 1`. */
  method CentreRow(g: array2<int>, rng: Rng, ghost s: Tiles, ghost p0: nat, i: int)
    requires IsMap(g) && 0 <= i < Size
    requires var d := CentreSweep(s, rng.draws, p0, Index(i, 0)); Cells(g) == d.tiles && rng.pos == d.pos
    modifies g, rng
    ensures var d := CentreSweep(s, rng.draws, p0, Index(i + 1, 0)); Cells(g) == d.tiles && rng.pos == d.pos
  {
    for j := 0 to Size
      invariant Cells(g) == CentreSweep(s, rng.draws, p0, Index(i, j)).tiles
      invariant rng.pos == CentreSweep(s, rng.draws, p0, Index(i, j)).pos
    {
      CentreVisit(g, rng, s, p0, i, j);
    }
    assert Index(i, Size) == Index(i + 1, 0);
  }

  /** The sweep's visit to (i, j): from its state before the cell to its state after it. */
  method CentreVisit(g: array2<int>, rng: Rng, ghost s: Tiles, ghost p0: nat, i: int, j: int)
    requires IsMap(g) && OnGrid(i, j)
    requires var d := CentreSweep(s, rng.draws, p0, Index(i, j)); Cells(g) == d.tiles && rng.pos == d.pos
    modifies g, rng
    ensures var d := CentreSweep(s, rng.draws, p0, Index(i, j + 1)); Cells(g) == d.tiles && rng.pos == d.pos
  {
    CentreSweepStep(s, rng.draws, p0, i, j);
    CentreCell(g, rng, i, j);
  }

  /** The body of the sweep at (i, j): a surrounded cell takes the centre code of the next draw. */
  method CentreCell(g: array2<int>, rng: Rng, i: int, j: int)
    requires IsMap(g) && OnGrid(i, j)
    modifies g, rng
    ensures var s, p := old(Cells(g)), old(rng.pos);
      && Cells(g) == (if Surrounded(s, i, j) then Set(s, i, j, CentreCode(rng.draws(p))) else s)
      && rng.pos == (if Surrounded(s, i, j) then p + 1 else p)
  {
    ghost var s := Cells(g);
    var surrounded := SurroundedAt(g, i, j);
    if surrounded {
      var r := rng.Next();
      if r % 12 > 2 {
        g[i, j] := 3;
      } else {
        g[i, j] := 4;
      }
      SameTiles(Cells(g), Set(s, i, j, CentreCode(r)));
    }
  }

  /** The test of `addCenterTiles` at (i, j), on the grid as the sweep has left it so far. */
  method SurroundedAt(g: array2<int>, i: int, j: int) returns (b: bool)
    requires IsMap(g) && OnGrid(i, j)
    ensures b == Surrounded(Cells(g), i, j)
  {
    b := && (i > 0 && (g[i - 1, j] == 5 || g[i - 1, j] == 3 || g[i - 1, j] == 4))
         && (i < Size - 1 && (g[i + 1, j] == 5 || g[i + 1, j] == 3 || g[i + 1, j] == 4))
         && (j > 0 && (g[i, j - 1] == 5 || g[i, j - 1] == 3 || g[i, j - 1] == 4))
         && (j < Size - 1 && (g[i, j + 1] == 5 || g[i, j + 1] == 3 || g[i, j + 1] == 4));
  }
}
