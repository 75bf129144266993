/**
 * The random seeding shared by `generateMap` and `initMapOverlay`: zeroing a grid, filling a
 * square of it with noise, and drawing cells until one holds a wanted code.
 */
module Seeding {
  import opened Grid
  import opened Random

  /** `memset(map, 0, ...)`: every cell becomes 0. */
  method Clear(g: array2<int>)
    requires IsMap(g)
    modifies g
    ensures Cells(g) == Blank()
  {
    for i := 0 to Size
      invariant forall a, b :: OnGrid(a, b) && a < i ==> g[a, b] == 0
    {
      for j := 0 to Size
        invariant forall a, b :: OnGrid(a, b) && (a < i || (a == i && b < j)) ==> g[a, b] == 0
      {
        g[i, j] := 0;
      }
    }
    SameTiles(Cells(g), Blank());
  }

  /** The noise square: rows and columns `lo .. hi-1`. */
  predicate InSquare(lo: int, hi: int, i: int, j: int)
  {
    lo <= i < hi && lo <= j < hi
  }

  /** How many draws the noise loop takes before row `i` of the square `lo .. hi-1`. */
  function RowStart(lo: int, hi: int, i: int): nat
    requires lo <= hi
    decreases i - lo
  {
    if i <= lo then 0 else RowStart(lo, hi, i - 1) + (hi - lo)
  }

  /** Which draw, counted from the first one of the noise loop, cell (i, j) of the square takes. */
  function NoiseDraw(lo: int, hi: int, i: int, j: int): nat
    requires InSquare(lo, hi, i, j)
  {
    RowStart(lo, hi, i) + (j - lo)
  }

  /** A later row of the square starts at least a full row of draws later. */
  lemma {:induction false} RowStartGrows(lo: int, hi: int, i: int, i': int)
    requires lo <= hi && lo <= i < i'
    ensures RowStart(lo, hi, i) + (hi - lo) <= RowStart(lo, hi, i')
    decreases i' - i
  {
    if i + 1 < i' {
      RowStartGrows(lo, hi, i, i' - 1);
    }
  }

  /** The noise loop takes one draw per cell of the square, `(hi - lo) * (hi - lo)` in all. */
  lemma {:induction false} RowStartArea(lo: int, hi: int, i: int)
    requires lo <= i <= hi
    ensures RowStart(lo, hi, i) == (i - lo) * (hi - lo)
    decreases i - lo
  {
    if i > lo {
      RowStartArea(lo, hi, i - 1);
      assert (i - lo) * (hi - lo) == (i - 1 - lo) * (hi - lo) + (hi - lo);
    }
  }

  /** The noise loop visits the square row by row, so each cell takes its own draw and no draw is skipped. */
  lemma NoiseDrawsDistinct(lo: int, hi: int, i: int, j: int, i': int, j': int)
    requires InSquare(lo, hi, i, j) && InSquare(lo, hi, i', j')
    ensures NoiseDraw(lo, hi, i, j) < (hi - lo) * (hi - lo)
    ensures NoiseDraw(lo, hi, i, j) == NoiseDraw(lo, hi, i', j') ==> i == i' && j == j'
  {
    RowStartGrows(lo, hi, i, hi);
    RowStartArea(lo, hi, hi);
    if i < i' {
      RowStartGrows(lo, hi, i, i');
    } else if i' < i {
      RowStartGrows(lo, hi, i', i);
    }
  }

  /**
   * The grid after `memset` and the noise loop over the square `lo .. hi-1`: each cell of the
   * square holds its draw modulo 2, every other cell 0.
   */
  function Noise(draws: nat -> nat, pos: nat, lo: int, hi: int): (r: Tiles)
    requires 0 <= lo <= hi <= Size
  {
    seq(Size, i requires 0 <= i < Size => seq(Size, j requires 0 <= j < Size =>
      if InSquare(lo, hi, i, j) then draws(pos + NoiseDraw(lo, hi, i, j)) % 2 else 0))
  }

  /** Noise is 0 or 1 everywhere and 0 outside its square. */
  lemma NoiseShape(draws: nat -> nat, pos: nat, lo: int, hi: int)
    requires 0 <= lo <= hi <= Size
    ensures forall i, j :: OnGrid(i, j) ==> Noise(draws, pos, lo, hi)[i][j] in {0, 1}
    ensures forall i, j :: OnGrid(i, j) && !InSquare(lo, hi, i, j) ==> Noise(draws, pos, lo, hi)[i][j] == 0
  {
  }

  /** The noise loop: each cell of the square takes the next draw modulo 2, row by row. */
  method Scatter(g: array2<int>, rng: Rng, lo: int, hi: int)
    requires IsMap(g) && 0 <= lo <= hi <= Size
    modifies g, rng
    ensures rng.pos == old(rng.pos) + RowStart(lo, hi, hi)
    ensures forall a, b :: OnGrid(a, b) ==>
      g[a, b] == if InSquare(lo, hi, a, b) then rng.draws(old(rng.pos) + NoiseDraw(lo, hi, a, b)) % 2 else old(g[a, b])
  {
    ghost var p0 := rng.pos;
    for i := lo to hi
      invariant rng.pos == p0 + RowStart(lo, hi, i)
      invariant forall a, b :: OnGrid(a, b) ==>
        g[a, b] == if lo <= a < i && lo <= b < hi then rng.draws(p0 + NoiseDraw(lo, hi, a, b)) % 2 else old(g[a, b])
    {
      for j := lo to hi
        invariant rng.pos == p0 + RowStart(lo, hi, i) + (j - lo)
        invariant forall a, b :: OnGrid(a, b) ==>
          g[a, b] == if (lo <= a < i && lo <= b < hi) || (a == i && lo <= b < j) then rng.draws(p0 + NoiseDraw(lo, hi, a, b)) % 2 else old(g[a, b])
      {
        var v := rng.Next();
        g[i, j] := v % 2;
      }
    }
  }

  /** A zeroed grid with noise over the square `lo .. hi-1`. */
  method SeedNoise(g: array2<int>, rng: Rng, lo: int, hi: int)
    requires IsMap(g) && 0 <= lo <= hi <= Size
    modifies g, rng
    ensures Cells(g) == Noise(rng.draws, old(rng.pos), lo, hi)
    ensures rng.pos == old(rng.pos) + (hi - lo) * (hi - lo)
  {
    Clear(g);
    Scatter(g, rng, lo, hi);
    RowStartArea(lo, hi, hi);
    SameTiles(Cells(g), Noise(rng.draws, old(rng.pos), lo, hi));
  }

  // ----- the seed-cell loop -----

  /** The cell of try `t`: row and column are the next two draws modulo 61. */
  function TryCell(draws: nat -> nat, pos: nat, t: nat): (c: (int, int))
    ensures OnGrid(c.0, c.1)
  {
    (draws(pos + 2 * t) % 61, draws(pos + 2 * t + 1) % 61)
  }

  /** Try `t` lands on a cell holding `target`. */
  predicate Hit(s: Tiles, draws: nat -> nat, pos: nat, target: int, t: nat)
  {
    var c := TryCell(draws, pos, t);
    s[c.0][c.1] == target
  }

  /** Every try before try `t` missed. */
  predicate Misses(s: Tiles, draws: nat -> nat, pos: nat, target: int, t: nat)
  {
    forall u: nat :: u < t ==> !Hit(s, draws, pos, target, u)
  }

  /** Outcome of the seed-cell loop: the cell found and the stream position after it, or the tries ran out. */
  datatype Pick = Found(x: int, y: int, pos: nat) | GaveUp(pos: nat)

  /**
   * The `do { ... } while (map[xindex][yindex] != target)` loop, allowed at most `tries` tries
   * (the source loops without bound).
   */
  function PickSeed(s: Tiles, draws: nat -> nat, pos: nat, target: int, tries: nat): (r: Pick)
    ensures r.Found? ==> OnGrid(r.x, r.y) && s[r.x][r.y] == target
    decreases tries
  {
    if tries == 0 then GaveUp(pos)
    else
      var c := TryCell(draws, pos, 0);
      if s[c.0][c.1] == target then Found(c.0, c.1, pos + 2)
      else PickSeed(s, draws, pos + 2, target, tries - 1)
  }

  /**
   * The loop stops at the first try that lands on `target`, having taken two draws per try;
   * it gives up only when every one of the `tries` tries missed.
   */
  lemma {:induction false} PickSeedFirst(s: Tiles, draws: nat -> nat, pos: nat, target: int, tries: nat)
    ensures var r := PickSeed(s, draws, pos, target, tries);
      r.Found? ==> exists t: nat :: FirstHit(s, draws, pos, target, t, tries, r)
    ensures var r := PickSeed(s, draws, pos, target, tries);
      r.GaveUp? <==> r == GaveUp(pos + 2 * tries) && Misses(s, draws, pos, target, tries)
    decreases tries
  {
    if tries > 0 {
      var c := TryCell(draws, pos, 0);
      if s[c.0][c.1] != target {
        PickSeedFirst(s, draws, pos + 2, target, tries - 1);
        var r := PickSeed(s, draws, pos + 2, target, tries - 1);
        if r.Found? {
          var t: nat :| FirstHit(s, draws, pos + 2, target, t, tries - 1, r);
          ShiftTries(s, draws, pos, target, t);
          assert FirstHit(s, draws, pos, target, t + 1, tries, r);
        } else {
          ShiftTries(s, draws, pos, target, tries - 1);
        }
      } else {
        assert FirstHit(s, draws, pos, target, 0, tries, PickSeed(s, draws, pos, target, tries));
      }
    }
  }

  /** Try `t` is the first one to land on `target`, it lies within the budget, and `r` reports it. */
  predicate FirstHit(s: Tiles, draws: nat -> nat, pos: nat, target: int, t: nat, tries: nat, r: Pick)
  {
    var c := TryCell(draws, pos, t);
    && t < tries && s[c.0][c.1] == target && Misses(s, draws, pos, target, t)
    && r == Found(c.0, c.1, pos + 2 * t + 2)
  }

  /** Try `t + 1` from `pos` is try `t` from `pos + 2`. */
  lemma ShiftTries(s: Tiles, draws: nat -> nat, pos: nat, target: int, t: nat)
    ensures TryCell(draws, pos, t + 1) == TryCell(draws, pos + 2, t)
    ensures Misses(s, draws, pos, target, t + 1) <==> !Hit(s, draws, pos, target, 0) && Misses(s, draws, pos + 2, target, t)
  {
    var next := pos + 2;
    if Misses(s, draws, pos, target, t + 1) {
      forall u: nat | u < t
        ensures !Hit(s, draws, next, target, u)
      {
        assert TryCell(draws, pos, u + 1) == TryCell(draws, next, u);
        assert !Hit(s, draws, pos, target, u + 1);
      }
    }
    if !Hit(s, draws, pos, target, 0) && Misses(s, draws, pos + 2, target, t) {
      forall u: nat | u < t + 1
        ensures !Hit(s, draws, pos, target, u)
      {
        if u > 0 {
          assert TryCell(draws, pos, u) == TryCell(draws, pos + 2, u - 1);
          assert !Hit(s, draws, pos + 2, target, u - 1);
        }
      }
    }
  }

  /** The seed-cell loop on a grid array, with at most `tries` tries. */
  method PickSeedIn(g: array2<int>, rng: Rng, target: int, tries: nat) returns (r: Pick)
    requires IsMap(g)
    modifies rng
    ensures r == PickSeed(Cells(g), rng.draws, old(rng.pos), target, tries)
    ensures rng.pos == r.pos
  {
    ghost var p0 := rng.pos;
    var left := tries;
    while left > 0
      invariant PickSeed(Cells(g), rng.draws, rng.pos, target, left) == PickSeed(Cells(g), rng.draws, p0, target, tries)
      decreases left
    {
      var x := rng.Next();
      var y := rng.Next();
      x, y := x % 61, y % 61;
      if g[x, y] == target {
        return Found(x, y, rng.pos);
      }
      left := left - 1;
    }
    return GaveUp(rng.pos);
  }
}
