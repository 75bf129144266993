/**
 * `initMapOverlay`: a second cave mask, smoothed harder than the main grid, whose flood-filled
 * region is counted.
 */
module Overlay {
  import opened Grid
  import opened Random
  import opened Smoothing
  import opened Connectivity
  import opened Seeding

  /** The platform code the flood fill paints. */
  const Platform: set<int> := {5}

  /** Rows and columns 0..58: the cells both counting loops of the generator visit. */
  const Counted := 59

  /** The number of draws the overlay's noise loop over rows and columns 5..53 takes. */
  const OverlayNoiseDraws := 49 * 49

  /** The counting loop of `initMapOverlay`: the platform cells in rows and columns 0..58. */
  method CountPlatform(g: array2<int>) returns (count: nat)
    requires IsMap(g)
    ensures count == CountBelow(Cells(g), Platform, Counted, Area)
  {
    ghost var s := Cells(g);
    count := 0;
    for i := 0 to Counted
      invariant count == CountBelow(s, Platform, Counted, Index(i, 0))
    {
      count := CountPlatformRow(g, s, i, count);
    }
    CountRowsRest(s, Platform, Counted, Counted);
  }

  /** One row of the counting loop: `count` goes from the count before row `i` to the count before row `i + 1`. */
  method CountPlatformRow(g: array2<int>, ghost s: Tiles, i: int, count: nat) returns (count': nat)
    requires IsMap(g) && 0 <= i < Counted && s == Cells(g) && count == CountBelow(s, Platform, Counted, Index(i, 0))
    ensures count' == CountBelow(s, Platform, Counted, Index(i + 1, 0))
  {
    count' := count;
    for j := 0 to Counted
      invariant count' == CountBelow(s, Platform, Counted, Index(i, j))
    {
      count' := CountPlatformCell(g, s, i, j, count');
    }
    CountRowRest(s, Platform, Counted, i, Counted);
    assert Index(i, Size) == Index(i + 1, 0);
  }

  /** One cell of the count: a 5 at (i, j) adds one. */
  method CountPlatformCell(g: array2<int>, ghost s: Tiles, i: int, j: int, count: nat) returns (count': nat)
    requires IsMap(g) && 0 <= i < Counted && 0 <= j < Counted && s == Cells(g)
    requires count == CountBelow(s, Platform, Counted, Index(i, j))
    ensures count' == CountBelow(s, Platform, Counted, Index(i, j + 1))
  {
    CountStep(s, Platform, Counted, i, j);
    count' := count;
    if g[i, j] == 5 {
      count' := count' + 1;
    }
  }

  /** The mask before the fill: zeroed, noise over rows and columns 5..53, then `condense(map, maptemp, 3)`. */
  function OverlayMask(draws: nat -> nat, pos: nat): Tiles
  {
    Condensed(Noise(draws, pos, 5, 54), Passes(3))
  }

  /** What `initMapOverlay` leaves: the mask, its counted area and the stream position, or no mask because the tries ran out. */
  datatype Mask = Mask(tiles: Tiles, area: nat, pos: nat) | NoMask(pos: nat)

  /**
   * `initMapOverlay` on a grid value: build the mask, pick a seed cell holding 1 (at most
   * `tries` tries), fill its region with 5 and count the 5s in rows and columns 0..58.
   */
  function MapOverlay(draws: nat -> nat, pos: nat, tries: nat): Mask
  {
    var m := OverlayMask(draws, pos);
    match PickSeed(m, draws, pos + OverlayNoiseDraws, 1, tries)
    case GaveUp(q) => NoMask(q)
    case Found(x, y, q) =>
      var f := Fill(m, x, y, 5);
      Mask(f, CountBelow(f, Platform, Counted, Area), q)
  }

  /** Before the fill the mask holds only 0 and 1. */
  lemma MaskIsBinary(draws: nat -> nat, pos: nat)
    ensures forall i, j :: OnGrid(i, j) ==> OverlayMask(draws, pos)[i][j] in {0, 1}
  {
    var noise := Noise(draws, pos, 5, 54);
    NoiseShape(draws, pos, 5, 54);
    CondensedShape(noise, Passes(3));
  }

  /**
   * The overlay holds 0, 1 and 5 only, and its 5s are exactly the cells 4-connected to the seed
   * cell through band cells of the mask holding 1.
   */
  lemma OverlayIsRegion(draws: nat -> nat, pos: nat, tries: nat)
    ensures var m := OverlayMask(draws, pos); var k := PickSeed(m, draws, pos + OverlayNoiseDraws, 1, tries);
      var o := MapOverlay(draws, pos, tries);
      k.Found? ==> o.Mask? && forall i, j :: OnGrid(i, j) ==>
        o.tiles[i][j] in {0, 1, 5} && (o.tiles[i][j] == 5 <==> Connected(m, 1, (k.x, k.y), (i, j)))
  {
    var m := OverlayMask(draws, pos);
    var k := PickSeed(m, draws, pos + OverlayNoiseDraws, 1, tries);
    if k.Found? {
      MaskIsBinary(draws, pos);
      FillIsComponent(m, k.x, k.y, 5);
    }
  }

  /** The area `initMapOverlay` returns is the number of 5s in rows and columns 0..58. */
  lemma OverlayArea(draws: nat -> nat, pos: nat, tries: nat)
    ensures var o := MapOverlay(draws, pos, tries);
      o.Mask? ==> o.area == |set i, j | 0 <= i < Size && 0 <= j < Size && i < Counted && j < Counted && o.tiles[i][j] == 5 :: (i, j)|
  {
    var o := MapOverlay(draws, pos, tries);
    if o.Mask? {
      CountCells(o.tiles, Platform, Counted);
      assert (set i, j | 0 <= i < Size && 0 <= j < Size && i < Counted && j < Counted && o.tiles[i][j] in Platform :: (i, j))
        == set i, j | 0 <= i < Size && 0 <= j < Size && i < Counted && j < Counted && o.tiles[i][j] == 5 :: (i, j);
    }
  }

  /** `MapOverlay` once the mask `m` is built and the seed-cell loop has given `k`. */
  lemma MapOverlayOf(draws: nat -> nat, pos: nat, tries: nat, m: Tiles, k: Pick)
    requires m == OverlayMask(draws, pos) && k == PickSeed(m, draws, pos + OverlayNoiseDraws, 1, tries)
    ensures k.GaveUp? ==> MapOverlay(draws, pos, tries) == NoMask(k.pos)
    ensures k.Found? ==> OnGrid(k.x, k.y) && m[k.x][k.y] == 1
    ensures k.Found? ==> var f := Fill(m, k.x, k.y, 5); MapOverlay(draws, pos, tries) == Mask(f, CountBelow(f, Platform, Counted, Area), k.pos)
  {
  }

  /** The start of `initMapOverlay(map)`: zeroed, noise over rows and columns 5..53, three smoothing passes. */
  method OverlayMaskInto(g: array2<int>, rng: Rng)
    requires IsMap(g)
    modifies g, rng
    ensures Cells(g) == OverlayMask(rng.draws, old(rng.pos)) && rng.pos == old(rng.pos) + OverlayNoiseDraws
  {
    var scratch := new int[Size, Size];
    SeedNoise(g, rng, 5, 54);
    Condense(g, scratch, 3);
  }

  /**
   * `initMapOverlay(map)`: `seeded` is false only when the seed-cell loop ran out of its
   * `tries` tries; otherwise the grid is the filled mask and `area` its counted 5s.
   */
  method InitMapOverlay(g: array2<int>, rng: Rng, tries: nat) returns (area: nat, seeded: bool)
    requires IsMap(g)
    modifies g, rng
    ensures var o := MapOverlay(rng.draws, old(rng.pos), tries);
      seeded == o.Mask? && rng.pos == o.pos && (seeded ==> Cells(g) == o.tiles && area == o.area)
  {
    ghost var p0 := rng.pos;
    OverlayMaskInto(g, rng);
    ghost var m := Cells(g);
    var pick := PickSeedIn(g, rng, 1, tries);
    MapOverlayOf(rng.draws, p0, tries, m, pick);
    if pick.GaveUp? {
      return 0, false;
    }
    FloodFill(g, pick.x, pick.y, 5);
    area := CountPlatform(g);
    seeded := true;
  }
}
