/** `condense`: the cellular-automaton smoother that turns noise into cave blobs. */
module Smoothing {
  import opened Grid

  /** The cells a pass rewrites: rows and columns 2..58. */
  predicate Interior(i: int, j: int)
  {
    2 <= i < 59 && 2 <= j < 59
  }

  function One(c: int): nat
  {
    if c == 1 then 1 else 0
  }

  /** The eight unrolled tests of `condense`: how many neighbours of (i, j) hold 1. */
  function OnesAround(s: Tiles, i: int, j: int): nat
    requires 1 <= i < Size - 1 && 1 <= j < Size - 1
  {
    One(s[i - 1][j - 1]) + One(s[i + 1][j - 1]) + One(s[i - 1][j + 1]) + One(s[i + 1][j + 1])
    + One(s[i - 1][j]) + One(s[i + 1][j]) + One(s[i][j - 1]) + One(s[i][j + 1])
  }

  /** The Moore neighbourhood of (i, j): the eight cells around it, the cell itself excluded. */
  ghost function OnesNear(s: Tiles, i: int, j: int): set<(int, int)>
    requires 1 <= i < Size - 1 && 1 <= j < Size - 1
  {
    set a, b | i - 1 <= a <= i + 1 && j - 1 <= b <= j + 1 && (a != i || b != j) && s[a][b] == 1 :: (a, b)
  }

  function Single(c: int, p: (int, int)): set<(int, int)>
  {
    if c == 1 then {p} else {}
  }

  /** The cells of row `a` in columns j-1..j+1, `j` itself left out when `a` is the centre row, that hold 1. */
  ghost function RowNear(s: Tiles, i: int, j: int, a: int): set<(int, int)>
    requires 1 <= i < Size - 1 && 1 <= j < Size - 1 && i - 1 <= a <= i + 1
  {
    set b | j - 1 <= b <= j + 1 && (a != i || b != j) && s[a][b] == 1 :: (a, b)
  }

  /** An outer row of the neighbourhood holds as many 1s as its three cells count one by one. */
  lemma OuterRowSize(s: Tiles, i: int, j: int, a: int)
    requires 1 <= i < Size - 1 && 1 <= j < Size - 1 && (a == i - 1 || a == i + 1)
    ensures |RowNear(s, i, j, a)| == One(s[a][j - 1]) + One(s[a][j]) + One(s[a][j + 1])
  {
    var left, mid, right := Single(s[a][j - 1], (a, j - 1)), Single(s[a][j], (a, j)), Single(s[a][j + 1], (a, j + 1));
    assert RowNear(s, i, j, a) == left + mid + right;
    assert left !! mid && (left + mid) !! right;
  }

  /** The centre row of the neighbourhood holds as many 1s as its two side cells count. */
  lemma CentreRowSize(s: Tiles, i: int, j: int)
    requires 1 <= i < Size - 1 && 1 <= j < Size - 1
    ensures |RowNear(s, i, j, i)| == One(s[i][j - 1]) + One(s[i][j + 1])
  {
    var left, right := Single(s[i][j - 1], (i, j - 1)), Single(s[i][j + 1], (i, j + 1));
    assert RowNear(s, i, j, i) == left + right;
  }

  /** The unrolled tests visit each of the eight neighbours exactly once: none is missed or counted twice. */
  lemma OnesAroundCountsNeighbours(s: Tiles, i: int, j: int)
    requires 1 <= i < Size - 1 && 1 <= j < Size - 1
    ensures OnesAround(s, i, j) == |OnesNear(s, i, j)|
  {
    var up, centre, down := RowNear(s, i, j, i - 1), RowNear(s, i, j, i), RowNear(s, i, j, i + 1);
    OuterRowSize(s, i, j, i - 1);
    CentreRowSize(s, i, j);
    OuterRowSize(s, i, j, i + 1);
    forall p | p in OnesNear(s, i, j)
      ensures p in up + centre + down
    {
      if p.0 == i - 1 {
        assert p in up;
      } else if p.0 == i {
        assert p in centre;
      } else {
        assert p in down;
      }
    }
    assert OnesNear(s, i, j) == up + centre + down;
    assert up !! centre && (up + centre) !! down;
  }

  /**
   * The rule for one cell: a nonzero cell becomes 0 when fewer than 2 neighbours hold 1 and 1
   * otherwise; a zero cell becomes 1 when more than 5 neighbours hold 1 and 0 otherwise.
   */
  function Smoothed(s: Tiles, i: int, j: int): int
    requires Interior(i, j)
  {
    var n := OnesAround(s, i, j);
    if s[i][j] != 0 then (if n < 2 then 0 else 1) else (if n > 5 then 1 else 0)
  }

  /** One pass: every interior cell takes the rule's value computed from `s` alone. */
  function CondensePass(s: Tiles): Tiles
  {
    seq(Size, i requires 0 <= i < Size =>
      seq(Size, j requires 0 <= j < Size => if Interior(i, j) then Smoothed(s, i, j) else s[i][j]))
  }

  /**
   * `n` passes, one after the other. (The decreases clause names `s` as well so that the
   * verifier does not expand every pass whenever `n` is a literal.)
   */
  function Condensed(s: Tiles, n: nat): Tiles
    decreases n, s
  {
    if n == 0 then s else Condensed(CondensePass(s), n - 1)
  }

  /**
   * The number of passes `condense(map, maptemp, rep)` runs: one, then the passes of the
   * recursive call with `rep - 1` while `rep > 0`. So a positive `rep` gives `rep + 1` passes.
   */
  function Passes(rep: int): (n: nat)
    ensures n >= 1
    ensures n == if rep > 0 then rep + 1 else 1
    decreases rep
  {
    if rep > 0 then 1 + Passes(rep - 1) else 1
  }

  /** One pass yields 0 or 1 in each interior cell, by the automaton rule, and leaves the rest. */
  lemma CondensePassRule(s: Tiles, i: int, j: int)
    requires OnGrid(i, j)
    ensures var r := CondensePass(s)[i][j];
      && (!Interior(i, j) ==> r == s[i][j])
      && (Interior(i, j) ==> r in {0, 1})
      && (Interior(i, j) && s[i][j] != 0 ==> (r == 0 <==> |OnesNear(s, i, j)| < 2))
      && (Interior(i, j) && s[i][j] == 0 ==> (r == 1 <==> |OnesNear(s, i, j)| > 5))
  {
    if Interior(i, j) {
      OnesAroundCountsNeighbours(s, i, j);
    }
  }

  /**
   * Any number of passes leaves rows and columns 0, 1, 59 and 60 alone, and after at least
   * one pass every interior cell holds 0 or 1.
   */
  lemma {:induction false} CondensedShape(s: Tiles, n: nat)
    ensures forall i, j :: OnGrid(i, j) && !Interior(i, j) ==> Condensed(s, n)[i][j] == s[i][j]
    ensures n >= 1 ==> forall i, j :: Interior(i, j) ==> Condensed(s, n)[i][j] in {0, 1}
    decreases n
  {
    if n > 0 {
      var s1 := CondensePass(s);
      CondensedShape(s1, n - 1);
      forall i, j | Interior(i, j)
        ensures Condensed(s, n)[i][j] in {0, 1}
      {
        if n == 1 {
          CondensePassRule(s, i, j);
        }
      }
      forall i, j | OnGrid(i, j) && !Interior(i, j)
        ensures Condensed(s, n)[i][j] == s[i][j]
      {
        CondensePassRule(s, i, j);
      }
    }
  }

  /** Every cell outside rows and columns lo..hi-1 holds 0. */
  ghost predicate ZeroOutside(s: Tiles, lo: int, hi: int)
  {
    forall i, j :: OnGrid(i, j) && !(lo <= i < hi && lo <= j < hi) ==> s[i][j] == 0
  }

  /**
   * A 0 outside the square has at most three neighbours inside it, too few to turn it into a
   * 1, so a pass keeps the outside of the square at 0.
   */
  lemma PassKeepsZeroOutside(s: Tiles, lo: int, hi: int)
    requires ZeroOutside(s, lo, hi)
    ensures ZeroOutside(CondensePass(s), lo, hi)
  {
    forall i, j | OnGrid(i, j) && !(lo <= i < hi && lo <= j < hi)
      ensures CondensePass(s)[i][j] == 0
    {
      if Interior(i, j) {
        assert OnesAround(s, i, j) <= 3;
      }
    }
  }

  /** Any number of passes keeps the outside of the square at 0. */
  lemma {:induction false} CondensedZeroOutside(s: Tiles, n: nat, lo: int, hi: int)
    requires ZeroOutside(s, lo, hi)
    ensures ZeroOutside(Condensed(s, n), lo, hi)
    decreases n
  {
    if n > 0 {
      PassKeepsZeroOutside(s, lo, hi);
      CondensedZeroOutside(CondensePass(s), n - 1, lo, hi);
    }
  }

  /**
   * `condense(map, maptemp, rep)`: one pass, then a recursive call while `rep > 0`, so
   * `Passes(rep)` passes in all. A pass writes the rule's values into the scratch grid `tmp`,
   * reading only `g`, then copies rows and columns 2..58 back into `g`.
   */
  method Condense(g: array2<int>, tmp: array2<int>, rep: int)
    requires IsMap(g) && IsMap(tmp) && g != tmp
    modifies g, tmp
    ensures Cells(g) == Condensed(old(Cells(g)), Passes(rep))
    ensures forall i, j :: Interior(i, j) ==> tmp[i, j] == g[i, j]
    ensures forall i, j :: OnGrid(i, j) && !Interior(i, j) ==> tmp[i, j] == old(tmp[i, j])
    decreases rep
  {
    ghost var s := Cells(g);
    SmoothInto(g, tmp);
    CopyBack(g, tmp);
    SameTiles(Cells(g), CondensePass(s));
    if rep > 0 {
      Condense(g, tmp, rep - 1);
    }
  }

  /** The first double loop of `condense`: the rule's value of every interior cell, into `tmp`. */
  method SmoothInto(g: array2<int>, tmp: array2<int>)
    requires IsMap(g) && IsMap(tmp) && g != tmp
    modifies tmp
    ensures forall a, b :: Interior(a, b) ==> tmp[a, b] == Smoothed(Cells(g), a, b)
    ensures forall a, b :: OnGrid(a, b) && !Interior(a, b) ==> tmp[a, b] == old(tmp[a, b])
  {
    for i := 2 to 59
      invariant forall a, b :: Interior(a, b) && a < i ==> tmp[a, b] == Smoothed(Cells(g), a, b)
      invariant forall a, b :: OnGrid(a, b) && !(Interior(a, b) && a < i) ==> tmp[a, b] == old(tmp[a, b])
    {
      SmoothRow(g, tmp, i);
    }
  }

  /** One row of the first double loop: the rule's value of the interior cells of row `i`, into `tmp`. */
  method SmoothRow(g: array2<int>, tmp: array2<int>, i: int)
    requires IsMap(g) && IsMap(tmp) && g != tmp && 2 <= i < 59
    modifies tmp
    ensures forall b :: 2 <= b < 59 ==> tmp[i, b] == Smoothed(Cells(g), i, b)
    ensures forall a, b :: OnGrid(a, b) && !(a == i && 2 <= b < 59) ==> tmp[a, b] == old(tmp[a, b])
  {
    ghost var s := Cells(g);
    for j := 2 to 59
      invariant forall b :: 2 <= b < j ==> tmp[i, b] == Smoothed(s, i, b)
      invariant forall a, b :: OnGrid(a, b) && !(a == i && 2 <= b < j) ==> tmp[a, b] == old(tmp[a, b])
    {
      SmoothCell(g, tmp, s, i, j);
    }
  }

  /** One step of the row: the rule's value of (i, j) into `tmp`, after those of columns 2..j-1. */
  method SmoothCell(g: array2<int>, tmp: array2<int>, ghost s: Tiles, i: int, j: int)
    requires IsMap(g) && IsMap(tmp) && g != tmp && Interior(i, j)
    requires forall a, b :: OnGrid(a, b) ==> g[a, b] == s[a][b]
    requires forall b :: 2 <= b < j ==> tmp[i, b] == Smoothed(s, i, b)
    modifies tmp
    ensures forall b :: 2 <= b <= j ==> tmp[i, b] == Smoothed(s, i, b)
    ensures forall a, b :: OnGrid(a, b) && !(a == i && b == j) ==> tmp[a, b] == old(tmp[a, b])
  {
    var v := SmoothedAt(g, s, i, j);
    tmp[i, j] := v;
  }

  /** The body of the first double loop: count the neighbours holding 1, then apply the rule. */
  method SmoothedAt(g: array2<int>, ghost s: Tiles, i: int, j: int) returns (v: int)
    requires IsMap(g) && Interior(i, j)
    requires forall a, b :: OnGrid(a, b) ==> g[a, b] == s[a][b]
    ensures v == Smoothed(s, i, j)
  {
    var count := 0;
    if g[i - 1, j - 1] == 1 { count := count + 1; }
    if g[i + 1, j - 1] == 1 { count := count + 1; }
    assert count == One(s[i - 1][j - 1]) + One(s[i + 1][j - 1]);
    if g[i - 1, j + 1] == 1 { count := count + 1; }
    if g[i + 1, j + 1] == 1 { count := count + 1; }
    assert count == One(s[i - 1][j - 1]) + One(s[i + 1][j - 1]) + One(s[i - 1][j + 1]) + One(s[i + 1][j + 1]);
    if g[i - 1, j] == 1 { count := count + 1; }
    if g[i + 1, j] == 1 { count := count + 1; }
    if g[i, j - 1] == 1 { count := count + 1; }
    if g[i, j + 1] == 1 { count := count + 1; }
    assert count == OnesAround(s, i, j);
    if g[i, j] != 0 {
      if count < 2 {
        v := 0;
      } else {
        v := 1;
      }
    } else {
      if count > 5 {
        v := 1;
      } else {
        v := 0;
      }
    }
  }

  /** The second double loop of `condense`: rows and columns 2..58 of `tmp` back into `g`. */
  method CopyBack(g: array2<int>, tmp: array2<int>)
    requires IsMap(g) && IsMap(tmp) && g != tmp
    modifies g
    ensures forall a, b :: OnGrid(a, b) ==> g[a, b] == if Interior(a, b) then tmp[a, b] else old(g[a, b])
  {
    for i := 2 to 59
      invariant forall a, b :: OnGrid(a, b) ==> g[a, b] == if Interior(a, b) && a < i then tmp[a, b] else old(g[a, b])
    {
      for j := 2 to 59
        invariant forall a, b :: OnGrid(a, b) ==>
          g[a, b] == if Interior(a, b) && (a < i || (a == i && b < j)) then tmp[a, b] else old(g[a, b])
      {
        g[i, j] := tmp[i, j];
      }
    }
  }
}
