/** The baseline agent: probes random cells, skipping those it has probed before, until
    the game is over. The random cells come in as a sequence of samples. */
module TrivialAgents {
  import opened Grid
  import opened BoardRules
  import opened Boards
  import opened ProbeRules

  class TrivialAgent {
    const board: Board
    /** `agnt_grid`: 1 where the agent has fired, 0 elsewhere. */
    const agntGrid: array2<int>
    /** The contents of `agntGrid` as a value. */
    ghost var probed: Cells
    /** The board's shot counter when the agent took the board over. */
    ghost const shotsBefore: int

    /** `agntGrid` is `dim` by `dim` and holds exactly `probed`, a grid of 0s and 1s. */
    ghost predicate Mirrors()
      reads this, agntGrid
    {
      && agntGrid.Length0 == board.dim && agntGrid.Length1 == board.dim
      && ProbeGrid(probed, board.dim)
      && forall a, b :: 0 <= a < board.dim && 0 <= b < board.dim ==> agntGrid[a, b] == probed[a][b]
    }

    /** The board is consistent, every probed cell has been fired at, and every shot on the
        board since the agent took it over went to a distinct probed cell. */
    ghost predicate Valid()
      reads this, agntGrid, board, board.grid, board.ships
    {
      && board.Valid()
      && agntGrid != board.grid
      && Mirrors()
      && Spent(probed, board.cells)
      && board.torpedosUsed == shotsBefore + Count(probed, 1)
    }

    /** Takes over `given`, or a new 10 by 10 board with the default fleet placed from `draws`;
        nothing is probed yet. */
    constructor (given: Board?, draws: seq<Draw>)
      requires given != null ==> given.Valid()
      ensures Valid() && fresh(agntGrid)
      ensures given != null ==> board == given
      ensures given == null ==>
        && fresh(board) && board.dim == 10 && board.torpedosUsed == 0
        && board.DefaultFleet()
      ensures probed == Zeros(board.dim) && shotsBefore == board.torpedosUsed
    {
      var dim := if given == null then 10 else given.dim;
      agntGrid := new int[dim, dim]((_, _) => 0);
      probed := Zeros(dim);
      var b: Board;
      if given == null {
        var spawned;
        b, spawned := Board.Create(10, DefaultConfig, draws);
      } else {
        b := given;
      }
      board := b;
      shotsBefore := b.torpedosUsed;
      CountPresent(Zeros(b.dim), 1);
    }

    /** One random probe at `sample`: an unprobed cell is fired at and marked; a probed one is
        left alone and nothing is fired. The torpedo's reply is not used. */
    method RandomProbe(sample: Coord)
      requires Valid()
      requires 0 <= sample.i < board.dim && 0 <= sample.j < board.dim
      modifies this`probed, agntGrid, board`torpedosUsed, board`cells, board.grid, board.ships
      ensures Valid()
      ensures old(probed[sample.i][sample.j]) == 0 ==>
        && probed == Set(old(probed), sample, 1)
        && board.cells == Fire(old(board.cells), sample)
        && board.Fleet() == FireFleet(old(board.cells), old(board.Fleet()), sample)
      ensures old(probed[sample.i][sample.j]) != 0 ==>
        && probed == old(probed) && board.cells == old(board.cells)
        && board.torpedosUsed == old(board.torpedosUsed) && board.Fleet() == old(board.Fleet())
    {
      var i, j := sample.i, sample.j;
      if agntGrid[i, j] == 0 {
        MarkCounts(probed, sample);
        ProbeSpends(probed, board.cells, sample);
        var _ := board.Torpedo(sample);
        ghost var fleet := board.Fleet();
        Mark(sample);
        assert board.Fleet() == fleet;
      }
    }

    /** Sets the cell `c` of `agntGrid` to 1. */
    method Mark(c: Coord)
      requires Mirrors() && 0 <= c.i < board.dim && 0 <= c.j < board.dim
      modifies this`probed, agntGrid
      ensures Mirrors() && probed == Set(old(probed), c, 1)
      ensures unchanged(board) && unchanged(board.ships)
    {
      agntGrid[c.i, c.j] := 1;
      probed := Set(probed, c, 1);
    }

    /** Probes at the samples in turn while the game is not over. `finished` says whether the
        game ended before the samples ran out; `score` is the board's shot counter, which has
        gone up by exactly the number of cells probed, at most one per cell. */
    method PlayUntilCompletion(samples: seq<Coord>) returns (finished: bool, score: int)
      requires Valid()
      requires forall k :: 0 <= k < |samples| ==> 0 <= samples[k].i < board.dim && 0 <= samples[k].j < board.dim
      modifies this`probed, agntGrid, board`torpedosUsed, board`cells, board.grid, board.ships
      ensures Valid()
      ensures finished <==> board.CheckGameover()
      ensures score == board.torpedosUsed == shotsBefore + Count(probed, 1)
      ensures score <= shotsBefore + board.dim * board.dim
      ensures OnlyMarks(old(probed), probed, board.dim)
    {
      var k := 0;
      while !board.CheckGameover() && k < |samples|
        invariant Valid() && 0 <= k <= |samples|
        invariant OnlyMarks(old(probed), probed, board.dim)
      {
        ghost var before := probed;
        RandomProbe(samples[k]);
        MarkKeepsOnlyMarks(old(probed), before, probed, samples[k], board.dim);
        k := k + 1;
      }
      finished := board.CheckGameover();
      score := board.Score();
      ProbedBound(probed, board.dim);
    }
  }
}
