/**
 * `floodFillspread` and `floodFill`: the recursive 4-directional flood fill that marks the
 * cells reachable from a seed cell.
 */
module Connectivity {
  import opened Grid

  /** The cells `floodFillspread` may recolour: its base case returns on x <= 2, x >= 59, y <= 2, y >= 59. */
  predicate InBand(x: int, y: int)
  {
    2 < x < 59 && 2 < y < 59
  }

  /** Band cells that still hold `c`. The fill terminates because this set shrinks. */
  ghost function Pending(s: Tiles, c: int): set<(int, int)>
  {
    set x, y | 2 < x < 59 && 2 < y < 59 && s[x][y] == c :: (x, y)
  }

  /** Every difference between `s` and `r` is a band cell that held `prevC` and now holds `newC`. */
  ghost predicate FillsOnly(s: Tiles, r: Tiles, prevC: int, newC: int)
  {
    forall i, j :: OnGrid(i, j) ==> r[i][j] == s[i][j] || (InBand(i, j) && s[i][j] == prevC && r[i][j] == newC)
  }

  lemma FillsOnlyTrans(a: Tiles, b: Tiles, c: Tiles, prevC: int, newC: int)
    requires FillsOnly(a, b, prevC, newC) && FillsOnly(b, c, prevC, newC)
    ensures FillsOnly(a, c, prevC, newC)
  {
  }

  lemma PendingShrinks(s: Tiles, r: Tiles, prevC: int, newC: int)
    requires prevC != newC && FillsOnly(s, r, prevC, newC)
    ensures Pending(r, prevC) <= Pending(s, prevC)
  {
    forall p | p in Pending(r, prevC)
      ensures p in Pending(s, prevC)
    {
      assert r[p.0][p.1] == prevC;
    }
  }

  /**
   * The recursion of `floodFillspread` on a grid value: recolour (x, y) when it lies in the
   * band and holds `prevC`, then continue at x+1, x-1, y+1 and y-1, in that order.
   */
  function Spread(s: Tiles, x: int, y: int, prevC: int, newC: int): (r: Tiles)
    requires prevC != newC
    ensures FillsOnly(s, r, prevC, newC)
    ensures Pending(r, prevC) <= Pending(s, prevC)
    decreases Pending(s, prevC)
  {
    if x <= 2 || x >= 59 || y <= 2 || y >= 59 || s[x][y] != prevC then s
    else
      var s0 := Set(s, x, y, newC);
      PendingShrinks(s, s0, prevC, newC);
      assert (x, y) in Pending(s, prevC) - Pending(s0, prevC);
      var s1 := Spread(s0, x + 1, y, prevC, newC);
      var s2 := Spread(s1, x - 1, y, prevC, newC);
      var s3 := Spread(s2, x, y + 1, prevC, newC);
      var r := Spread(s3, x, y - 1, prevC, newC);
      FillsOnlyTrans(s, s0, s1, prevC, newC);
      FillsOnlyTrans(s, s1, s2, prevC, newC);
      FillsOnlyTrans(s, s2, s3, prevC, newC);
      FillsOnlyTrans(s, s3, r, prevC, newC);
      r
  }

  /** One orthogonal step; the fill never moves diagonally. */
  predicate Adjacent(a: (int, int), b: (int, int))
  {
    b == (a.0 + 1, a.1) || b == (a.0 - 1, a.1) || b == (a.0, a.1 + 1) || b == (a.0, a.1 - 1)
  }

  /** `p` is a walk of orthogonal steps through band cells that hold `c` in `s`. */
  ghost predicate IsPath(s: Tiles, c: int, p: seq<(int, int)>)
  {
    && |p| > 0
    && (forall k :: 0 <= k < |p| ==> InBand(p[k].0, p[k].1) && s[p[k].0][p[k].1] == c)
    && (forall k :: 0 < k < |p| ==> Adjacent(p[k - 1], p[k]))
  }

  /** `b` is reached from `a` through band cells holding `c`, moving 4-directionally. */
  ghost predicate Connected(s: Tiles, c: int, a: (int, int), b: (int, int))
  {
    exists p :: IsPath(s, c, p) && p[0] == a && p[|p| - 1] == b
  }

  /** The far end of a connection is a band cell holding the colour too. */
  lemma ConnectedHolds(s: Tiles, c: int, a: (int, int), b: (int, int))
    ensures Connected(s, c, a, b) ==> InBand(b.0, b.1) && s[b.0][b.1] == c
  {
    if Connected(s, c, a, b) {
      var p: seq<(int, int)> :| IsPath(s, c, p) && p[0] == a && p[|p| - 1] == b;
      assert InBand(p[|p| - 1].0, p[|p| - 1].1) && s[p[|p| - 1].0][p[|p| - 1].1] == c;
    }
  }

  lemma ConnectedFromBand(s: Tiles, c: int, a: (int, int), b: (int, int))
    ensures Connected(s, c, a, b) ==> InBand(a.0, a.1)
  {
    if Connected(s, c, a, b) {
      var p: seq<(int, int)> :| IsPath(s, c, p) && p[0] == a && p[|p| - 1] == b;
      assert InBand(p[0].0, p[0].1);
    }
  }

  /** No band neighbour of (i, j) holds `c` any more. */
  ghost predicate Sealed(r: Tiles, c: int, i: int, j: int)
  {
    && (InBand(i + 1, j) ==> r[i + 1][j] != c)
    && (InBand(i - 1, j) ==> r[i - 1][j] != c)
    && (InBand(i, j + 1) ==> r[i][j + 1] != c)
    && (InBand(i, j - 1) ==> r[i][j - 1] != c)
  }

  /** Every band cell holding `c` that left `c` between `s` and `r` is sealed in `r`. */
  ghost predicate FilledSealed(s: Tiles, r: Tiles, c: int)
  {
    forall i, j :: InBand(i, j) && s[i][j] == c && r[i][j] != c ==> Sealed(r, c, i, j)
  }

  /**
   * After `Spread` from (x, y) the start no longer holds `prevC`, and no recoloured cell is
   * left with a band neighbour that still holds `prevC`.
   */
  lemma {:induction false} SpreadSeals(s: Tiles, x: int, y: int, prevC: int, newC: int)
    requires prevC != newC
    ensures InBand(x, y) ==> Spread(s, x, y, prevC, newC)[x][y] != prevC
    ensures FilledSealed(s, Spread(s, x, y, prevC, newC), prevC)
    decreases Pending(s, prevC)
  {
    if x <= 2 || x >= 59 || y <= 2 || y >= 59 || s[x][y] != prevC {
    } else {
      var s0 := Set(s, x, y, newC);
      PendingShrinks(s, s0, prevC, newC);
      assert (x, y) in Pending(s, prevC) - Pending(s0, prevC);
      var s1 := Spread(s0, x + 1, y, prevC, newC);
      var s2 := Spread(s1, x - 1, y, prevC, newC);
      var s3 := Spread(s2, x, y + 1, prevC, newC);
      var r := Spread(s3, x, y - 1, prevC, newC);
      SpreadSeals(s0, x + 1, y, prevC, newC);
      SpreadSeals(s1, x - 1, y, prevC, newC);
      SpreadSeals(s2, x, y + 1, prevC, newC);
      SpreadSeals(s3, x, y - 1, prevC, newC);
      SealedAfterStep(s, s1, s2, s3, r, x, y, prevC, newC);
      assert r == Spread(s, x, y, prevC, newC);
    }
  }

  /** One step of `Spread` from (x, y) seals what its four recursive calls sealed, and (x, y) itself. */
  lemma SealedAfterStep(s: Tiles, s1: Tiles, s2: Tiles, s3: Tiles, r: Tiles, x: int, y: int, prevC: int, newC: int)
    requires prevC != newC && InBand(x, y) && s[x][y] == prevC
    requires FillsOnly(Set(s, x, y, newC), s1, prevC, newC) && FillsOnly(s1, s2, prevC, newC)
    requires FillsOnly(s2, s3, prevC, newC) && FillsOnly(s3, r, prevC, newC)
    requires InBand(x + 1, y) ==> s1[x + 1][y] != prevC
    requires InBand(x - 1, y) ==> s2[x - 1][y] != prevC
    requires InBand(x, y + 1) ==> s3[x][y + 1] != prevC
    requires InBand(x, y - 1) ==> r[x][y - 1] != prevC
    requires FilledSealed(Set(s, x, y, newC), s1, prevC) && FilledSealed(s1, s2, prevC)
    requires FilledSealed(s2, s3, prevC) && FilledSealed(s3, r, prevC)
    ensures r[x][y] != prevC
    ensures FilledSealed(s, r, prevC)
  {
    var s0 := Set(s, x, y, newC);
    FillsOnlyTrans(s2, s3, r, prevC, newC);
    FillsOnlyTrans(s1, s2, r, prevC, newC);
    FillsOnlyTrans(s0, s1, r, prevC, newC);
    assert s0[x][y] == newC;
    forall i, j | InBand(i, j) && s[i][j] == prevC && r[i][j] != prevC
      ensures Sealed(r, prevC, i, j)
    {
      if (i, j) == (x, y) {
      } else if s1[i][j] != prevC {
        SealedPersists(s1, r, prevC, newC, i, j);
      } else if s2[i][j] != prevC {
        SealedPersists(s2, r, prevC, newC, i, j);
      } else if s3[i][j] != prevC {
        SealedPersists(s3, r, prevC, newC, i, j);
      }
    }
  }

  lemma SealedPersists(a: Tiles, b: Tiles, c: int, newC: int, i: int, j: int)
    requires c != newC && FillsOnly(a, b, c, newC) && Sealed(a, c, i, j)
    ensures Sealed(b, c, i, j)
  {
  }

  /** A walk through `c` cells of `t` is one of `s` when `s` differs from `t` only by earlier fills. */
  lemma PathBack(s: Tiles, t: Tiles, c: int, newC: int, p: seq<(int, int)>)
    requires c != newC && FillsOnly(s, t, c, newC) && IsPath(t, c, p)
    ensures IsPath(s, c, p)
  {
    forall k | 0 <= k < |p|
      ensures s[p[k].0][p[k].1] == c
    {
      assert t[p[k].0][p[k].1] == c;
    }
  }

  lemma ExtendPath(s: Tiles, t: Tiles, c: int, newC: int, x: int, y: int, q: (int, int), b: (int, int))
    requires c != newC && FillsOnly(s, t, c, newC)
    requires InBand(x, y) && s[x][y] == c && Adjacent((x, y), q) && Connected(t, c, q, b)
    ensures Connected(s, c, (x, y), b)
  {
    var p :| IsPath(t, c, p) && p[0] == q && p[|p| - 1] == b;
    PathBack(s, t, c, newC, p);
    ConsPath(s, c, (x, y), p);
    assert ([(x, y)] + p)[|p|] == b;
  }

  /** A walk stays a walk when a band cell holding `c` next to its first cell is put in front. */
  lemma ConsPath(s: Tiles, c: int, a: (int, int), p: seq<(int, int)>)
    requires IsPath(s, c, p) && InBand(a.0, a.1) && s[a.0][a.1] == c && Adjacent(a, p[0])
    ensures IsPath(s, c, [a] + p)
  {
    var p' := [a] + p;
    forall k | 0 < k < |p'|
      ensures Adjacent(p'[k - 1], p'[k])
    {
      if k > 1 {
        assert p'[k - 1] == p[k - 2] && p'[k] == p[k - 1];
      }
    }
  }

  /** A cell `Spread` recolours is connected to (x, y) through cells holding `prevC` in `s`. */
  lemma {:induction false} SpreadConnected(s: Tiles, x: int, y: int, prevC: int, newC: int, i: int, j: int)
    requires prevC != newC && OnGrid(i, j) && Spread(s, x, y, prevC, newC)[i][j] != s[i][j]
    ensures Connected(s, prevC, (x, y), (i, j))
    decreases Pending(s, prevC), 1
  {
    if x <= 2 || x >= 59 || y <= 2 || y >= 59 || s[x][y] != prevC {
    } else {
      assert Adjacent((x, y), (x + 1, y)) && Adjacent((x, y), (x - 1, y)) && Adjacent((x, y), (x, y + 1)) && Adjacent((x, y), (x, y - 1));
      var s0 := Set(s, x, y, newC);
      var s1 := Spread(s0, x + 1, y, prevC, newC);
      var s2 := Spread(s1, x - 1, y, prevC, newC);
      var s3 := Spread(s2, x, y + 1, prevC, newC);
      var r := Spread(s3, x, y - 1, prevC, newC);
      assert r == Spread(s, x, y, prevC, newC);
      FillsOnlyTrans(s, s0, s1, prevC, newC);
      FillsOnlyTrans(s, s1, s2, prevC, newC);
      FillsOnlyTrans(s, s2, s3, prevC, newC);
      if (i, j) == (x, y) {
        assert IsPath(s, prevC, [(x, y)]);
      } else if s1[i][j] != s0[i][j] {
        ThroughNeighbour(s, s0, x, y, (x + 1, y), prevC, newC, i, j);
      } else if s2[i][j] != s1[i][j] {
        ThroughNeighbour(s, s1, x, y, (x - 1, y), prevC, newC, i, j);
      } else if s3[i][j] != s2[i][j] {
        ThroughNeighbour(s, s2, x, y, (x, y + 1), prevC, newC, i, j);
      } else {
        ThroughNeighbour(s, s3, x, y, (x, y - 1), prevC, newC, i, j);
      }
    }
  }

  /**
   * One neighbour call of the recursion: once (x, y) is recoloured in `t`, a cell the call from
   * neighbour `q` recolours is connected to (x, y) in `s`.
   */
  lemma {:induction false} ThroughNeighbour(s: Tiles, t: Tiles, x: int, y: int, q: (int, int), prevC: int, newC: int, i: int, j: int)
    requires prevC != newC && FillsOnly(s, t, prevC, newC)
    requires InBand(x, y) && s[x][y] == prevC && t[x][y] == newC && Adjacent((x, y), q)
    requires OnGrid(i, j) && Spread(t, q.0, q.1, prevC, newC)[i][j] != t[i][j]
    ensures Connected(s, prevC, (x, y), (i, j))
    decreases Pending(s, prevC), 0
  {
    PendingShrinks(s, t, prevC, newC);
    assert (x, y) in Pending(s, prevC) - Pending(t, prevC);
    SpreadConnected(t, q.0, q.1, prevC, newC, i, j);
    ExtendPath(s, t, prevC, newC, x, y, q, (i, j));
  }

  /** Along a walk from a recoloured cell, closure under sealing recolours every cell of the walk. */
  lemma {:induction false} WalkFilled(s: Tiles, r: Tiles, c: int, newC: int, p: seq<(int, int)>)
    requires c != newC && FillsOnly(s, r, c, newC) && FilledSealed(s, r, c)
    requires IsPath(s, c, p) && r[p[0].0][p[0].1] != c
    ensures r[p[|p| - 1].0][p[|p| - 1].1] == newC
    decreases |p|
  {
    var b := p[|p| - 1];
    if |p| > 1 {
      var q := p[..|p| - 1];
      assert IsPath(s, c, q);
      WalkFilled(s, r, c, newC, q);
      var a := q[|q| - 1];
      assert Adjacent(a, b);
      assert Sealed(r, c, a.0, a.1);
    }
  }

  /** (a, b) is a band cell holding `c`: a cell `floodFillspread` rewrites when `c` is its `prevC`. */
  predicate BandHolds(s: Tiles, a: int, b: int, c: int)
  {
    InBand(a, b) && s[a][b] == c
  }

  /**
   * `floodFill` from (x, y) with `newC` returns. It can fail to only when the start is a band cell
   * that already holds `newC`: then `prevC == newC`, every rewrite leaves the cell holding `prevC`,
   * and a band neighbour that holds `newC` too sends the recursion back and forth between the two
   * forever. A band start holding `newC` with no such neighbour is rewritten with its own code, and
   * the four recursive calls return at once.
   */
  predicate FillEnds(s: Tiles, x: int, y: int, newC: int)
    requires OnGrid(x, y)
  {
    BandHolds(s, x, y, newC) ==>
      !BandHolds(s, x + 1, y, newC) && !BandHolds(s, x - 1, y, newC)
      && !BandHolds(s, x, y + 1, newC) && !BandHolds(s, x, y - 1, newC)
  }

  /**
   * `floodFill`: fill from (x, y) with `newC`, taking the start cell's code as the code to replace.
   * When that code already equals `newC` the fill changes nothing (outside the band it returns at
   * once; inside, `FillEnds` leaves only the start to rewrite, with its own code).
   */
  function Fill(s: Tiles, x: int, y: int, newC: int): (r: Tiles)
    requires OnGrid(x, y) && FillEnds(s, x, y, newC)
  {
    if s[x][y] != newC then Spread(s, x, y, s[x][y], newC) else s
  }

  /**
   * The flood fill recolours exactly the 4-connected component of the start through band cells
   * holding the start's original code: those cells become `newC`, every other cell is unchanged,
   * and a start outside the band changes nothing.
   */
  lemma FillIsComponent(s: Tiles, x: int, y: int, newC: int)
    requires OnGrid(x, y) && FillEnds(s, x, y, newC)
    ensures forall i, j :: OnGrid(i, j) ==>
      Fill(s, x, y, newC)[i][j] == if Connected(s, s[x][y], (x, y), (i, j)) then newC else s[i][j]
    ensures !InBand(x, y) ==> Fill(s, x, y, newC) == s
  {
    var c := s[x][y];
    var r := Fill(s, x, y, newC);
    if !InBand(x, y) {
      forall i, j | OnGrid(i, j)
        ensures !Connected(s, c, (x, y), (i, j))
      {
        ConnectedFromBand(s, c, (x, y), (i, j));
      }
    } else if c == newC {
      forall i, j | OnGrid(i, j) && Connected(s, c, (x, y), (i, j))
        ensures s[i][j] == newC
      {
        ConnectedHolds(s, c, (x, y), (i, j));
      }
    } else {
      SpreadSeals(s, x, y, c, newC);
      forall i, j | OnGrid(i, j)
        ensures r[i][j] == if Connected(s, c, (x, y), (i, j)) then newC else s[i][j]
      {
        if r[i][j] != s[i][j] {
          SpreadConnected(s, x, y, c, newC, i, j);
        }
        if Connected(s, c, (x, y), (i, j)) {
          var p: seq<(int, int)> :| IsPath(s, c, p) && p[0] == (x, y) && p[|p| - 1] == (i, j);
          WalkFilled(s, r, c, newC, p);
        }
      }
    }
  }

  /** `floodFillspread`, recursing on the grid array in place. */
  method FloodFillSpread(g: array2<int>, x: int, y: int, prevC: int, newC: int)
    requires IsMap(g) && prevC != newC
    modifies g
    ensures Cells(g) == Spread(old(Cells(g)), x, y, prevC, newC)
    decreases Pending(Cells(g), prevC)
  {
    if x <= 2 || x >= 59 || y <= 2 || y >= 59 {
      return;
    }
    if g[x, y] != prevC {
      return;
    }
    ghost var s := Cells(g);
    g[x, y] := newC;
    SameTiles(Cells(g), Set(s, x, y, newC));
    PendingShrinks(s, Cells(g), prevC, newC);
    assert (x, y) in Pending(s, prevC) - Pending(Cells(g), prevC);
    FloodFillSpread(g, x + 1, y, prevC, newC);
    FloodFillSpread(g, x - 1, y, prevC, newC);
    FloodFillSpread(g, x, y + 1, prevC, newC);
    FloodFillSpread(g, x, y - 1, prevC, newC);
  }

  /**
   * `floodFill(screen, x, y, newC)`; the coordinates are `uint8_t` values drawn modulo 61. When
   * `prevC == newC` the source's `floodFillspread` at most rewrites the start with its own code
   * (`FillEnds`), so the model skips the call.
   */
  method FloodFill(g: array2<int>, x: int, y: int, newC: int)
    requires IsMap(g) && OnGrid(x, y) && FillEnds(Cells(g), x, y, newC)
    modifies g
    ensures Cells(g) == Fill(old(Cells(g)), x, y, newC)
  {
    var prevC := g[x, y];
    if prevC != newC {
      FloodFillSpread(g, x, y, prevC, newC);
    }
  }
}
