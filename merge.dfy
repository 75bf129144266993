/** `combine` and `cleanEdgesPostCombine`: merging the overlay mask into the main grid. */
module Merge {
  import opened Grid

  /**
   * `combine` on one cell: under an overlay 5, a map cell other than 0 or 1 takes its combined
   * code (2 becomes 9, 6 becomes 10, 5 becomes 8, anything else 11); elsewhere it is kept.
   */
  function CombineCode(m: int, o: int): int
  {
    if o == 5 && m != 0 && m != 1 then
      (if m == 2 then 9 else if m == 6 then 10 else if m == 5 then 8 else 11)
    else m
  }

  function Combined(s: Tiles, o: Tiles): Tiles
  {
    seq(Size, i requires 0 <= i < Size => seq(Size, j requires 0 <= j < Size => CombineCode(s[i][j], o[i][j])))
  }

  /** `combine(map, overlay)`: one pass over the whole grid; the overlay is only read. */
  method Combine(g: array2<int>, overlay: array2<int>)
    requires IsMap(g) && IsMap(overlay) && g != overlay
    modifies g
    ensures Cells(g) == Combined(old(Cells(g)), Cells(overlay))
  {
    ghost var s := Cells(g);
    for i := 0 to Size
      invariant forall a, b :: OnGrid(a, b) ==>
        g[a, b] == if a < i then CombineCode(s[a][b], overlay[a, b]) else s[a][b]
    {
      for j := 0 to Size
        invariant forall a, b :: OnGrid(a, b) ==>
          g[a, b] == if a < i || (a == i && b < j) then CombineCode(s[a][b], overlay[a, b]) else s[a][b]
      {
        if (overlay[i, j] == 5 && g[i, j] != 0) && (overlay[i, j] == 5 && g[i, j] != 1) {
          if g[i, j] == 2 {
            g[i, j] := 9;
          } else if g[i, j] == 6 {
            g[i, j] := 10;
          } else if g[i, j] == 5 {
            g[i, j] := 8;
          } else {
            g[i, j] := 11;
          }
        }
      }
    }
    SameTiles(Cells(g), Combined(s, Cells(overlay)));
  }

  /** The codes the main grid holds before merging: 0 to 7. */
  predicate PrimaryCodes(s: Tiles)
  {
    forall i, j :: 0 <= i < Size && 0 <= j < Size ==> 0 <= s[i][j] <= 7
  }

  /** The code a combined cell came from, where that can be told: 9 from 2, 10 from 6, 8 from 5. */
  function Uncombine(c: int): int
  {
    if c == 9 then 2 else if c == 10 then 6 else if c == 8 then 5 else c
  }

  /**
   * On a grid of codes 0 to 7, `combine` changes exactly the cells under an overlay 5 that hold
   * neither 0 nor 1, each into a code from 8 to 11, and every changed cell other than an 11
   * can be changed back.
   */
  lemma CombineMarks(s: Tiles, o: Tiles)
    requires PrimaryCodes(s)
    ensures forall i, j :: OnGrid(i, j) ==>
      (Combined(s, o)[i][j] != s[i][j] <==> o[i][j] == 5 && s[i][j] != 0 && s[i][j] != 1)
    ensures forall i, j :: OnGrid(i, j) && Combined(s, o)[i][j] != s[i][j] ==> 8 <= Combined(s, o)[i][j] <= 11
    ensures forall i, j :: OnGrid(i, j) && Combined(s, o)[i][j] != 11 ==> Uncombine(Combined(s, o)[i][j]) == s[i][j]
  {
  }

  // ----- cleanEdgesPostCombine -----

  /** A combined 9 in rows and columns 1..59 without an 8 on its left. */
  predicate LooseNine(s: Tiles, i: int, j: int)
    requires OnGrid(i, j)
  {
    1 <= i < Size - 1 && 1 <= j < Size - 1 && s[i][j] == 9 && s[i][j - 1] != 8
  }

  /** A combined 10 in rows and columns 1..59 without an 8 on its right. */
  predicate LooseTen(s: Tiles, i: int, j: int)
    requires OnGrid(i, j)
  {
    1 <= i < Size - 1 && 1 <= j < Size - 1 && s[i][j] == 10 && s[i][j + 1] != 8
  }

  /** `cleanEdgesPostCombine` on one cell, judged on `s`: a loose 9 goes back to 2, a loose 10 to 6. */
  function RepairCode(s: Tiles, i: int, j: int): int
    requires OnGrid(i, j)
  {
    if LooseNine(s, i, j) then 2 else if LooseTen(s, i, j) then 6 else s[i][j]
  }

  function Repaired(s: Tiles): Tiles
  {
    seq(Size, i requires 0 <= i < Size => seq(Size, j requires 0 <= j < Size => RepairCode(s, i, j)))
  }

  /**
   * `cleanEdgesPostCombine`: the sweep reads the j-1 neighbour after its own rewrite, but a
   * rewrite never makes or removes an 8, so the result is the synchronous rule on the grid as
   * it was.
   */
  method CleanEdgesPostCombine(g: array2<int>)
    requires IsMap(g)
    modifies g
    ensures Cells(g) == Repaired(old(Cells(g)))
  {
    ghost var s := Cells(g);
    for i := 1 to Size - 1
      invariant forall a, b :: OnGrid(a, b) ==> g[a, b] == if a < i then RepairCode(s, a, b) else s[a][b]
    {
      for j := 1 to Size - 1
        invariant forall a, b :: OnGrid(a, b) ==>
          g[a, b] == if a < i || (a == i && b < j) then RepairCode(s, a, b) else s[a][b]
      {
        assert g[i, j - 1] != 8 <==> s[i][j - 1] != 8;
        if g[i, j] == 9 && g[i, j - 1] != 8 {
          g[i, j] := 2;
        } else if g[i, j] == 10 && g[i, j + 1] != 8 {
          g[i, j] := 6;
        }
      }
    }
    SameTiles(Cells(g), Repaired(s));
  }

  /**
   * After the repair every 9 in rows and columns 1..59 has an 8 on its left and every 10 an 8 on
   * its right; the only changes are 9 to 2 and 10 to 6, so no 8 is touched; and a second repair
   * changes nothing.
   */
  lemma RepairedEdges(s: Tiles)
    ensures forall i, j :: 1 <= i < Size - 1 && 1 <= j < Size - 1 && Repaired(s)[i][j] == 9 ==> Repaired(s)[i][j - 1] == 8
    ensures forall i, j :: 1 <= i < Size - 1 && 1 <= j < Size - 1 && Repaired(s)[i][j] == 10 ==> Repaired(s)[i][j + 1] == 8
    ensures forall i, j :: OnGrid(i, j) && Repaired(s)[i][j] != s[i][j] ==>
      (s[i][j] == 9 && Repaired(s)[i][j] == 2) || (s[i][j] == 10 && Repaired(s)[i][j] == 6)
    ensures Repaired(Repaired(s)) == Repaired(s)
  {
    var r := Repaired(s);
    forall i, j | 1 <= i < Size - 1 && 1 <= j < Size - 1 && r[i][j] == 9
      ensures r[i][j - 1] == 8
    {
      assert s[i][j - 1] == 8;
      assert r[i][j - 1] == RepairCode(s, i, j - 1);
    }
    forall i, j | 1 <= i < Size - 1 && 1 <= j < Size - 1 && r[i][j] == 10
      ensures r[i][j + 1] == 8
    {
      assert s[i][j + 1] == 8;
      assert r[i][j + 1] == RepairCode(s, i, j + 1);
    }
    forall i, j | OnGrid(i, j)
      ensures RepairCode(r, i, j) == r[i][j]
    {
      if 1 <= i < Size - 1 && 1 <= j < Size - 1 {
        assert r[i][j - 1] == RepairCode(s, i, j - 1);
        assert r[i][j + 1] == RepairCode(s, i, j + 1);
      }
    }
    SameTiles(Repaired(r), r);
  }

  /**
   * On a grid of codes 0 to 7, repairing after `combine` only ever puts back the code a cell held
   * before `combine`: each cell ends with its combined code or its original one.
   */
  lemma RepairRestores(s: Tiles, o: Tiles)
    requires PrimaryCodes(s)
    ensures forall i, j :: OnGrid(i, j) ==>
      Repaired(Combined(s, o))[i][j] == Combined(s, o)[i][j] || Repaired(Combined(s, o))[i][j] == s[i][j]
  {
    var c := Combined(s, o);
    forall i, j | OnGrid(i, j)
      ensures Repaired(c)[i][j] == c[i][j] || Repaired(c)[i][j] == s[i][j]
    {
      assert Repaired(c)[i][j] == RepairCode(c, i, j);
    }
  }
}
