/** The 61x61 tile grid shared by every generator pass, its value view, and tile counting. */
module Grid {

  /** Side length of every grid (`uint8_t map[61][61]`). */
  const Size := 61

  predicate IsGrid(s: seq<seq<int>>)
  {
    |s| == Size && forall i :: 0 <= i < Size ==> |s[i]| == Size
  }

  /** The value of a grid: rows of tile codes, indexed `[i][j]` as in the source. */
  type Tiles = s: seq<seq<int>> | IsGrid(s) witness Blank()

  /** The all-zero grid that `memset` leaves behind. */
  function Blank(): (r: seq<seq<int>>)
    ensures IsGrid(r)
    ensures forall i, j :: 0 <= i < Size && 0 <= j < Size ==> r[i][j] == 0
  {
    seq(Size, i => seq(Size, j => 0))
  }

  predicate OnGrid(i: int, j: int)
  {
    0 <= i < Size && 0 <= j < Size
  }

  /** A grid array of the source's shape. */
  predicate IsMap(g: array2<int>)
  {
    g.Length0 == Size && g.Length1 == Size
  }

  /** The current value of a grid array. */
  ghost function Cells(g: array2<int>): (s: Tiles)
    requires IsMap(g)
    reads g
    ensures forall i, j :: OnGrid(i, j) ==> s[i][j] == g[i, j]
  {
    seq(Size, i requires 0 <= i < Size reads g => seq(Size, j requires 0 <= j < Size reads g => g[i, j]))
  }

  /** `s` with cell (i, j) replaced by `v`. */
  function Set(s: Tiles, i: int, j: int, v: int): (r: Tiles)
    requires OnGrid(i, j)
    ensures r[i][j] == v
    ensures forall a, b :: OnGrid(a, b) && (a != i || b != j) ==> r[a][b] == s[a][b]
  {
    s[i := s[i][j := v]]
  }

  /** Two grid values that agree on every cell are equal. */
  lemma SameTiles(a: Tiles, b: Tiles)
    requires forall i, j :: OnGrid(i, j) ==> a[i][j] == b[i][j]
    ensures a == b
  {
    forall i | 0 <= i < Size
      ensures a[i] == b[i]
    {
      assert forall j :: 0 <= j < Size ==> a[i][j] == b[i][j];
    }
  }

  /**
   * Number of cells; the cell with flat index `k` of a row-major sweep is (k / 61, k % 61).
   * Flat-index arithmetic writes the side length as the literal 61 rather than `Size`, so that
   * products and quotients stay linear for the solver.
   */
  const Area := 61 * 61

  /** Flat row-major index of cell (i, j). */
  function Index(i: int, j: int): int
  {
    i * 61 + j
  }

  lemma IndexCell(i: int, j: int)
    requires OnGrid(i, j)
    ensures 0 <= Index(i, j) < Area && Index(i, j) / 61 == i && Index(i, j) % 61 == j
  {
  }

  /** The cell with flat index `k` lies on the grid and has index `k`. */
  lemma CellOf(k: int)
    requires 0 <= k < Area
    ensures OnGrid(k / 61, k % 61) && Index(k / 61, k % 61) == k
  {
  }

  /**
   * Number of cells with flat index below `k` that lie in rows and columns `0 .. n-1` and
   * whose code is one of `codes`.
   */
  function CountBelow(s: Tiles, codes: set<int>, n: int, k: int): nat
    requires 0 <= k <= Area
  {
    if k == 0 then 0
    else CountBelow(s, codes, n, k - 1) + (if (k - 1) / 61 < n && (k - 1) % 61 < n && s[(k - 1) / 61][(k - 1) % 61] in codes then 1 else 0)
  }

  /** One more cell of the row-major count. */
  lemma CountStep(s: Tiles, codes: set<int>, n: int, i: int, j: int)
    requires OnGrid(i, j)
    ensures 0 <= Index(i, j) < Area
    ensures CountBelow(s, codes, n, Index(i, j) + 1) == CountBelow(s, codes, n, Index(i, j)) + if i < n && j < n && s[i][j] in codes then 1 else 0
  {
    IndexCell(i, j);
  }

  /** The cells `CountBelow` counts, as a set. */
  ghost function CellsBelow(s: Tiles, codes: set<int>, n: int, k: int): set<(int, int)>
  {
    set a, b | 0 <= a < Size && 0 <= b < Size && a < n && b < n && Index(a, b) < k && s[a][b] in codes :: (a, b)
  }

  /** The row-major count visits every cell once: it is the size of the set of cells it counts. */
  lemma {:induction false} CountBelowCells(s: Tiles, codes: set<int>, n: int, k: int)
    requires 0 <= k <= Area
    ensures CountBelow(s, codes, n, k) == |CellsBelow(s, codes, n, k)|
    decreases k
  {
    if k == 0 {
      assert CellsBelow(s, codes, n, 0) == {};
    } else {
      CountBelowCells(s, codes, n, k - 1);
      CountBelowCellsStep(s, codes, n, k);
    }
  }

  /** The cell with flat index `k - 1` adds one to the count exactly when it joins the set of counted cells. */
  lemma CountBelowCellsStep(s: Tiles, codes: set<int>, n: int, k: int)
    requires 0 < k <= Area
    ensures CountBelow(s, codes, n, k) - CountBelow(s, codes, n, k - 1)
      == |CellsBelow(s, codes, n, k)| - |CellsBelow(s, codes, n, k - 1)|
  {
    CellsBelowNext(s, codes, n, k - 1);
  }

  /** The set of counted cells grows by the cell with flat index `k`, when that cell is counted, and by nothing else. */
  lemma CellsBelowNext(s: Tiles, codes: set<int>, n: int, k: int)
    requires 0 <= k < Area
    ensures OnGrid(k / 61, k % 61)
    ensures var c := (k / 61, k % 61);
      && c !in CellsBelow(s, codes, n, k)
      && CellsBelow(s, codes, n, k + 1) == CellsBelow(s, codes, n, k) + if c.0 < n && c.1 < n && s[c.0][c.1] in codes then {c} else {}
  {
    CellOf(k);
    var c := (k / 61, k % 61);
    forall a, b | OnGrid(a, b) && Index(a, b) == k
      ensures (a, b) == c
    {
      IndexCell(a, b);
    }
  }

  /** Over the whole grid, `CountBelow` is the number of cells in rows and columns `0 .. n-1` holding one of `codes`. */
  lemma CountCells(s: Tiles, codes: set<int>, n: int)
    ensures CountBelow(s, codes, n, Area) == |set a, b | 0 <= a < Size && 0 <= b < Size && a < n && b < n && s[a][b] in codes :: (a, b)|
  {
    CountBelowCells(s, codes, n, Area);
    forall a, b | OnGrid(a, b)
      ensures Index(a, b) < Area
    {
      IndexCell(a, b);
    }
    assert CellsBelow(s, codes, n, Area) == set a, b | 0 <= a < Size && 0 <= b < Size && a < n && b < n && s[a][b] in codes :: (a, b);
  }

  /** Columns from `j` on of a row the count skips add nothing to it. */
  lemma {:induction false} CountRowRest(s: Tiles, codes: set<int>, n: int, i: int, j: int)
    requires 0 <= i < Size && 0 <= j <= Size && (i >= n || j >= n)
    ensures Index(i, j) <= Index(i, Size) <= Area
    ensures CountBelow(s, codes, n, Index(i, Size)) == CountBelow(s, codes, n, Index(i, j))
    decreases Size - j
  {
    if j < Size {
      CountRowRest(s, codes, n, i, j + 1);
      IndexCell(i, j);
    }
  }

  /** Rows from `i` on, all at or past row `n`, add nothing to the count. */
  lemma {:induction false} CountRowsRest(s: Tiles, codes: set<int>, n: int, i: int)
    requires 0 <= n <= i <= Size
    ensures CountBelow(s, codes, n, Area) == CountBelow(s, codes, n, Index(i, 0))
    decreases Size - i
  {
    if i < Size {
      CountRowsRest(s, codes, n, i + 1);
      CountRowRest(s, codes, n, i, 0);
    }
  }
}
