/** What the agents keep of the game: the grid of probed cells (`agnt_grid`: 0 not yet
    probed, 1 probed), seen as a value, and how it relates to the board's grid. */
module ProbeRules {
  import opened Grid
  import opened BoardRules

  /** A `dim` by `dim` grid of 0s and 1s. */
  predicate ProbeGrid(probed: Cells, dim: int)
  {
    && Square(probed, dim)
    && forall a, b :: 0 <= a < dim && 0 <= b < dim ==> probed[a][b] == 0 || probed[a][b] == 1
  }

  /** Every probed cell has been fired at, so none of them is an intact ship cell. */
  predicate Spent(probed: Cells, cells: Cells)
  {
    forall a, b :: 0 <= a < |cells| && 0 <= b < |cells[a]| && InGrid(probed, Coord(a, b)) && probed[a][b] == 1 ==>
      cells[a][b] <= 0
  }

  /** Marking a cell probed in the same step as firing at it keeps every probed cell spent. */
  lemma ProbeSpends(probed: Cells, cells: Cells, c: Coord)
    requires Spent(probed, cells) && InGrid(cells, c) && InGrid(probed, c)
    ensures Spent(Set(probed, c, 1), Fire(cells, c))
  {
    var p := Set(probed, c, 1);
    var f := Fire(cells, c);
    forall a, b | 0 <= a < |f| && 0 <= b < |f[a]| && InGrid(p, Coord(a, b)) && p[a][b] == 1
      ensures f[a][b] <= 0
    {
      if Coord(a, b) != c {
        assert probed[a][b] == 1;
      }
    }
  }

  /** Marking a cell moves it from the unprobed count to the probed count, when it was unprobed;
      a cell probed before changes neither count. */
  lemma MarkCounts(probed: Cells, c: Coord)
    requires InGrid(probed, c) && (At(probed, c) == 0 || At(probed, c) == 1)
    ensures Count(Set(probed, c, 1), 1) == Count(probed, 1) + Indicator(At(probed, c) == 0)
    ensures Count(Set(probed, c, 1), 0) == Count(probed, 0) - Indicator(At(probed, c) == 0)
  {
    CountSet(probed, c, 1, 1);
    CountSet(probed, c, 1, 0);
  }

  /** Probed cells never go back to unprobed: each cell keeps its value or turns from 0 to 1. */
  predicate OnlyMarks(before: Cells, after: Cells, dim: int)
    requires Square(before, dim) && Square(after, dim)
  {
    forall a, b :: 0 <= a < dim && 0 <= b < dim ==>
      after[a][b] == before[a][b] || (before[a][b] == 0 && after[a][b] == 1)
  }

  /** A probe that marks one cell, or nothing, keeps OnlyMarks from the start. */
  lemma MarkKeepsOnlyMarks(start: Cells, before: Cells, after: Cells, c: Coord, dim: int)
    requires Square(start, dim) && ProbeGrid(before, dim) && InGrid(before, c)
    requires OnlyMarks(start, before, dim)
    requires after == before || after == Set(before, c, 1)
    ensures Square(after, dim) && OnlyMarks(start, after, dim)
  {
  }

  /** While the game is not over some intact ship cell is still unprobed, so a probe at it
      is always possible: the agents never run out of useful cells. */
  lemma LiveCellUnprobed(probed: Cells, cells: Cells, fleet: seq<ShipView>, dim: int)
    requires Square(cells, dim) && ProbeGrid(probed, dim)
    requires Encoded(cells, fleet) && Spent(probed, cells)
    requires TotalLife(fleet) != 0
    ensures exists a, b :: 0 <= a < dim && 0 <= b < dim && cells[a][b] > 0 && probed[a][b] == 0
  {
    GameOverIffNoLiveCell(cells, fleet);
    var a, b :| 0 <= a < |cells| && 0 <= b < |cells[a]| && cells[a][b] > 0;
    assert InGrid(probed, Coord(a, b));
  }

  /** On a `dim` by `dim` grid at most `dim * dim` cells can be probed. */
  lemma ProbedBound(probed: Cells, dim: nat)
    requires Square(probed, dim)
    ensures Count(probed, 1) <= dim * dim
  {
    CountBound(probed, dim, 1);
  }
}
