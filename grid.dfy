/** Square integer grids as the board, the agents and the environment keep them
    (numpy 2-D arrays), seen as values: a sequence of rows. */
module Grid {

  /** A grid coordinate (row i, column j), as the source's `(i, j)` tuples. */
  datatype Coord = Coord(i: int, j: int)

  type Cells = seq<seq<int>>

  predicate Square(cells: Cells, n: int)
  {
    |cells| == n && forall a :: 0 <= a < n ==> |cells[a]| == n
  }

  predicate InGrid(cells: Cells, p: Coord)
  {
    0 <= p.i < |cells| && 0 <= p.j < |cells[p.i]|
  }

  function At(cells: Cells, p: Coord): int
    requires InGrid(cells, p)
  {
    cells[p.i][p.j]
  }

  /** `cells` with the one cell at `p` overwritten by `v`. */
  function Set(cells: Cells, p: Coord, v: int): (r: Cells)
    requires InGrid(cells, p)
    ensures |r| == |cells| && forall a :: 0 <= a < |r| ==> |r[a]| == |cells[a]|
    ensures forall a, b :: 0 <= a < |r| && 0 <= b < |r[a]| ==>
              r[a][b] == if a == p.i && b == p.j then v else cells[a][b]
  {
    cells[p.i := cells[p.i][p.j := v]]
  }

  /** An n-by-n grid of zeros, as `np.zeros((n, n))`. */
  function Zeros(n: nat): (r: Cells)
    ensures Square(r, n)
    ensures forall a, b :: 0 <= a < n && 0 <= b < n ==> r[a][b] == 0
  {
    seq(n, _ => seq(n, _ => 0))
  }

  /** `cells` with every coordinate of `fp` that lies on the grid set to `v`. */
  function Paint(cells: Cells, fp: seq<Coord>, v: int): (r: Cells)
    ensures |r| == |cells| && forall a :: 0 <= a < |r| ==> |r[a]| == |cells[a]|
    ensures forall a, b :: 0 <= a < |r| && 0 <= b < |r[a]| ==>
              r[a][b] == if Coord(a, b) in fp then v else cells[a][b]
  {
    seq(|cells|, a requires 0 <= a < |cells| =>
      seq(|cells[a]|, b requires 0 <= b < |cells[a]| =>
        if Coord(a, b) in fp then v else cells[a][b]))
  }

  /** Two grids of the same shape that agree cell by cell are equal. */
  lemma CellsEqual(s: Cells, t: Cells)
    requires |s| == |t| && forall a :: 0 <= a < |s| ==> |s[a]| == |t[a]|
    requires forall a, b :: 0 <= a < |s| && 0 <= b < |s[a]| ==> s[a][b] == t[a][b]
    ensures s == t
  {
    forall a | 0 <= a < |s|
      ensures s[a] == t[a]
    {
      assert |s[a]| == |t[a]|;
    }
  }

  /** The number of entries of `row` equal to `x`. */
  function RowCount(row: seq<int>, x: int): nat
  {
    if row == [] then 0
    else RowCount(row[..|row| - 1], x) + (if row[|row| - 1] == x then 1 else 0)
  }

  /** The number of cells of `cells` equal to `x`. */
  function Count(cells: Cells, x: int): nat
  {
    if cells == [] then 0
    else Count(cells[..|cells| - 1], x) + RowCount(cells[|cells| - 1], x)
  }

  function Indicator(b: bool): nat
  {
    if b then 1 else 0
  }

  lemma {:induction false} RowCountSet(row: seq<int>, j: int, v: int, x: int)
    requires 0 <= j < |row|
    ensures RowCount(row[j := v], x) == RowCount(row, x) - Indicator(row[j] == x) + Indicator(v == x)
  {
    var n := |row|;
    var r := row[j := v];
    assert r[..n - 1] == if j == n - 1 then row[..n - 1] else row[..n - 1][j := v];
    if j < n - 1 {
      RowCountSet(row[..n - 1], j, v, x);
    }
  }

  /** Overwriting one cell moves one unit of count from its old value to its new one. */
  lemma {:induction false} CountSet(cells: Cells, p: Coord, v: int, x: int)
    requires InGrid(cells, p)
    ensures Count(Set(cells, p, v), x) == Count(cells, x) - Indicator(At(cells, p) == x) + Indicator(v == x)
  {
    var n := |cells|;
    var r := Set(cells, p, v);
    if p.i == n - 1 {
      assert r[..n - 1] == cells[..n - 1];
      RowCountSet(cells[n - 1], p.j, v, x);
    } else {
      assert r[..n - 1] == Set(cells[..n - 1], p, v);
      assert r[n - 1] == cells[n - 1];
      CountSet(cells[..n - 1], p, v, x);
    }
  }

  lemma {:induction false} RowCountPresent(row: seq<int>, x: int)
    ensures RowCount(row, x) > 0 <==> exists b :: 0 <= b < |row| && row[b] == x
  {
    if row != [] {
      var n := |row|;
      RowCountPresent(row[..n - 1], x);
      if RowCount(row[..n - 1], x) > 0 {
        var b :| 0 <= b < n - 1 && row[..n - 1][b] == x;
        assert row[b] == x;
      }
      if exists b :: 0 <= b < n && row[b] == x {
        var b :| 0 <= b < n && row[b] == x;
        if b < n - 1 {
          assert row[..n - 1][b] == x;
        }
      }
    }
  }

  /** A value is counted exactly when some cell holds it. */
  lemma {:induction false} CountPresent(cells: Cells, x: int)
    ensures Count(cells, x) > 0 <==> exists a, b :: 0 <= a < |cells| && 0 <= b < |cells[a]| && cells[a][b] == x
  {
    if cells != [] {
      var n := |cells|;
      CountPresent(cells[..n - 1], x);
      RowCountPresent(cells[n - 1], x);
      if Count(cells[..n - 1], x) > 0 {
        var a, b :| 0 <= a < n - 1 && 0 <= b < |cells[..n - 1][a]| && cells[..n - 1][a][b] == x;
        assert cells[a][b] == x;
      }
      if exists a, b :: 0 <= a < n && 0 <= b < |cells[a]| && cells[a][b] == x {
        var a, b :| 0 <= a < n && 0 <= b < |cells[a]| && cells[a][b] == x;
        if a < n - 1 {
          assert cells[..n - 1][a][b] == x;
        }
      }
    }
  }

  lemma {:induction false} RowCountBound(row: seq<int>, x: int)
    ensures RowCount(row, x) <= |row|
  {
    if row != [] {
      RowCountBound(row[..|row| - 1], x);
    }
  }

  /** No value occupies more cells than a grid of `|cells|` rows of width `w` has. */
  lemma {:induction false} CountBound(cells: Cells, w: nat, x: int)
    requires forall a :: 0 <= a < |cells| ==> |cells[a]| == w
    ensures Count(cells, x) <= |cells| * w
  {
    if cells != [] {
      var n := |cells|;
      CountBound(cells[..n - 1], w, x);
      RowCountBound(cells[n - 1], x);
      assert (n - 1) * w + w == n * w;
    }
  }

  /** Painting `v != 0` over distinct ocean cells moves `|fp|` cells from value 0 to value `v`. */
  lemma {:induction false} PaintCount(cells: Cells, fp: seq<Coord>, v: int, x: int)
    requires v != 0
    requires forall t :: 0 <= t < |fp| ==> InGrid(cells, fp[t]) && At(cells, fp[t]) == 0
    requires forall s, t :: 0 <= s < t < |fp| ==> fp[s] != fp[t]
    ensures Count(Paint(cells, fp, v), x) == Count(cells, x) + (if x == v then |fp| else 0) - (if x == 0 then |fp| else 0)
  {
    if fp == [] {
      CellsEqual(Paint(cells, fp, v), cells);
    } else {
      var m := |fp|;
      var last := fp[m - 1];
      var before := Paint(cells, fp[..m - 1], v);
      PaintCount(cells, fp[..m - 1], v, x);
      assert last !in fp[..m - 1];
      PaintLast(cells, fp, v);
      CountSet(before, last, v, x);
    }
  }

  /** Painting a list of cells is painting all but the last, then setting the last one. */
  lemma PaintLast(cells: Cells, fp: seq<Coord>, v: int)
    requires fp != [] && InGrid(cells, fp[|fp| - 1])
    ensures var before := Paint(cells, fp[..|fp| - 1], v);
            InGrid(before, fp[|fp| - 1]) && Paint(cells, fp, v) == Set(before, fp[|fp| - 1], v)
  {
    var m := |fp|;
    var before := Paint(cells, fp[..m - 1], v);
    forall a, b | 0 <= a < |cells| && 0 <= b < |cells[a]|
      ensures Paint(cells, fp, v)[a][b] == Set(before, fp[m - 1], v)[a][b]
    {
      assert Coord(a, b) in fp <==> Coord(a, b) in fp[..m - 1] || Coord(a, b) == fp[m - 1] by {
        assert fp == fp[..m - 1] + [fp[m - 1]];
      }
    }
    CellsEqual(Paint(cells, fp, v), Set(before, fp[m - 1], v));
  }
}
