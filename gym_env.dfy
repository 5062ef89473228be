/** The reinforcement-learning environment around a board: an action is the index of a
    cell, the observation is the grid of what has been learned about each cell (0 unknown,
    1 hit, -1 miss), and every step earns +1 for a hit and -1 otherwise. */
module GymEnv {
  import opened Grid
  import opened BoardRules
  import opened Boards

  /** `BOARD_DIM`: the side of the observation grid and of the boards `reset` builds. */
  const BoardDim: nat := 10

  /** What `step` raises: `ValueError` when the torpedo reports coordinates off the board,
      `IndexError` when numpy refuses a cell the board accepted but the observation grid
      does not have (only possible on a larger board given to `_overwrite_board`). */
  datatype StepError = ValueError | IndexError

  /** What a successful step reports besides the observation itself. */
  datatype Transition = Transition(reward: int, done: bool)

  /** The cell an action names: `(action % BOARD_DIM, action // BOARD_DIM)`. Python's `%`
      and `//` floor, which for the positive divisor agrees with Dafny's Euclidean `%` and
      `/`. The row is always on the grid; the column is exactly when the action is in the
      action space, and the action is recovered from the cell. */
  function ActionCoord(action: int): (c: Coord)
    ensures 0 <= c.i < BoardDim
    ensures c.i + BoardDim * c.j == action
    ensures 0 <= action < BoardDim * BoardDim <==> 0 <= c.j < BoardDim
  {
    Coord(action % BoardDim, action / BoardDim)
  }

  /** The action naming cell `c`. */
  function ActionIndex(c: Coord): int
  {
    c.i + BoardDim * c.j
  }

  /** Decoding undoes encoding: every cell of the observation grid is named by exactly one
      action of the action space. */
  lemma ActionRoundTrip(c: Coord)
    requires 0 <= c.i < BoardDim && 0 <= c.j < BoardDim
    ensures 0 <= ActionIndex(c) < BoardDim * BoardDim
    ensures ActionCoord(ActionIndex(c)) == c
  {
  }

  /** The reward: -1 for every step, +2 back when the torpedo hit. */
  function Reward(hit: TorpedoResult): (reward: int)
    ensures reward == 1 <==> hit == Hit
    ensures reward == -1 <==> hit != Hit
  {
    -1 + (if hit == Hit then 2 else 0)
  }

  /** The observation written for a torpedo reply: -1 for a miss, 1 for a hit. */
  function ObservedValue(hit: TorpedoResult): int
  {
    if hit == Miss then -1 else 1
  }

  /** A `dim` by `dim` grid of -1, 0 and 1. */
  predicate ObsGrid(obs: Cells, dim: int)
  {
    && Square(obs, dim)
    && forall a, b :: 0 <= a < dim && 0 <= b < dim ==> -1 <= obs[a][b] <= 1
  }

  /** The observation never lies about a cell of the board: a cell observed as a hit is a
      hit ship cell, and a cell observed as a miss holds no intact ship cell. */
  predicate Sound(obs: Cells, cells: Cells)
  {
    forall a, b :: 0 <= a < |obs| && 0 <= b < |obs[a]| && InGrid(cells, Coord(a, b)) ==>
      (obs[a][b] == 1 ==> cells[a][b] < 0) && (obs[a][b] == -1 ==> cells[a][b] <= 0)
  }

  /** A torpedo only turns intact cells into hit ones, so the observation stays sound. */
  lemma FireKeepsSound(obs: Cells, cells: Cells, c: Coord)
    requires Sound(obs, cells)
    ensures Sound(obs, Fire(cells, c))
  {
    var f := Fire(cells, c);
    forall a, b | 0 <= a < |obs| && 0 <= b < |obs[a]| && InGrid(f, Coord(a, b))
      ensures (obs[a][b] == 1 ==> f[a][b] < 0) && (obs[a][b] == -1 ==> f[a][b] <= 0)
    {
      assert InGrid(cells, Coord(a, b));
    }
  }

  /** Recording the torpedo's reply at `c` keeps the observation sound. */
  lemma ObserveKeepsSound(obs: Cells, cells: Cells, c: Coord)
    requires Sound(obs, cells) && InGrid(obs, c) && InGrid(cells, c)
    ensures Sound(Set(obs, c, ObservedValue(ShotOutcome(cells, c))), Fire(cells, c))
  {
    FireKeepsSound(obs, cells, c);
    var o := Set(obs, c, ObservedValue(ShotOutcome(cells, c)));
    var f := Fire(cells, c);
    forall a, b | 0 <= a < |o| && 0 <= b < |o[a]| && InGrid(f, Coord(a, b))
      ensures (o[a][b] == 1 ==> f[a][b] < 0) && (o[a][b] == -1 ==> f[a][b] <= 0)
    {
      if Coord(a, b) != c {
        assert o[a][b] == obs[a][b];
      }
    }
  }

  /** What `step` does to the observation keeps it sound, in all three outcomes: nothing
      recorded after a shot off the board or off the observation grid, the reply recorded
      otherwise. */
  lemma StepKeepsSound(obs: Cells, cells: Cells, c: Coord)
    ensures Sound(obs, cells) ==> Sound(obs, Fire(cells, c))
    ensures Sound(obs, cells) && InGrid(obs, c) && InGrid(cells, c) ==>
      Sound(Set(obs, c, ObservedValue(ShotOutcome(cells, c))), Fire(cells, c))
  {
    if Sound(obs, cells) {
      FireKeepsSound(obs, cells, c);
      if InGrid(obs, c) && InGrid(cells, c) {
        ObserveKeepsSound(obs, cells, c);
      }
    }
  }

  /** Firing again at a cell observed as a hit is a miss, so the step records -1 there:
      the observation then calls a hit ship cell a miss, and stays sound only because a
      hit cell holds no intact ship cell. */
  lemma ReshotHitRecordedAsMiss(obs: Cells, cells: Cells, c: Coord)
    requires Sound(obs, cells) && InGrid(obs, c) && InGrid(cells, c) && At(obs, c) == 1
    ensures ShotOutcome(cells, c) == Miss && At(cells, c) < 0
    ensures At(Set(obs, c, ObservedValue(ShotOutcome(cells, c))), c) == -1
  {
    assert obs[c.i][c.j] == 1;
  }

  class BattleshipEnv {
    var board: Board
    /** The observation, as the int32 numpy array `state`. */
    var state: array2<int>
    var done: bool
    /** The contents of `state` as a value. */
    ghost var obs: Cells

    /** `state` is BOARD_DIM by BOARD_DIM and holds exactly `obs`, a grid of -1, 0 and 1. */
    ghost predicate Mirrors()
      reads this`state, this`obs, state
    {
      && state.Length0 == BoardDim && state.Length1 == BoardDim
      && ObsGrid(obs, BoardDim)
      && forall a, b :: 0 <= a < BoardDim && 0 <= b < BoardDim ==> state[a, b] == obs[a][b]
    }

    /** The board is consistent and the observation is a separate array mirroring `obs`. */
    ghost predicate Valid()
      reads this`board, this`state, this`obs, state, board, board.grid, board.ships
    {
      board.Valid() && state != board.grid && Mirrors()
    }

    /** `__init__`, which ends by calling `reset`: a fresh 10 by 10 board with the default
        fleet placed from `draws`, nothing observed, and the episode not done. */
    constructor (draws: seq<Draw>)
      ensures Valid() && fresh(board) && fresh(state)
      ensures board.dim == BoardDim && board.torpedosUsed == 0
      ensures board.DefaultFleet()
      ensures obs == Zeros(BoardDim) && Sound(obs, board.cells) && !done
    {
      state := new int[BoardDim, BoardDim]((_, _) => 0);
      obs := Zeros(BoardDim);
      done := false;
      var b, _ := Board.Create(BoardDim, DefaultConfig, draws);
      board := b;
    }

    /** A new 10 by 10 board with the default fleet placed from `draws`, an all-unknown
        observation, which is returned, and the episode not done. */
    method Reset(draws: seq<Draw>) returns (observation: array2<int>)
      modifies this`board, this`state, this`done, this`obs
      ensures Valid() && fresh(board) && fresh(state) && observation == state
      ensures board.dim == BoardDim && board.torpedosUsed == 0
      ensures board.DefaultFleet()
      ensures obs == Zeros(BoardDim) && Sound(obs, board.cells) && !done
    {
      state := new int[BoardDim, BoardDim]((_, _) => 0);
      obs := Zeros(BoardDim);
      done := false;
      var b, _ := Board.Create(BoardDim, DefaultConfig, draws);
      board := b;
      observation := state;
    }

    /** Fires at the cell `action` names and records the reply in the observation: -1 for
        a miss, 1 for a hit; `done` becomes whether the game is over. A reply off the board
        raises ValueError with nothing recorded; a cell the board has but the observation
        grid lacks raises IndexError after the shot. On a 10 by 10 board every action of
        the action space succeeds, and the observation stays sound. */
    method Step(action: int) returns (r: Result<Transition, StepError>)
      requires Valid()
      modifies board`torpedosUsed, board`cells, board.grid, board.ships, state, this`done, this`obs
      ensures Valid()
      ensures var c := ActionCoord(action);
        && board.cells == Fire(old(board.cells), c)
        && board.Fleet() == FireFleet(old(board.cells), old(board.Fleet()), c)
      ensures var c := ActionCoord(action);
              var hit := ShotOutcome(old(board.cells), c);
        && board.torpedosUsed == old(board.torpedosUsed) + (if hit == InvalidCoordinates then 0 else 1)
        && (hit == InvalidCoordinates ==> r == Err(ValueError) && obs == old(obs) && done == old(done))
        && (hit != InvalidCoordinates && c.j >= BoardDim ==> r == Err(IndexError) && obs == old(obs) && done == old(done))
        && (hit != InvalidCoordinates && c.j < BoardDim ==>
              && obs == Set(old(obs), c, ObservedValue(hit))
              && done == board.CheckGameover()
              && r == Ok(Transition(Reward(hit), done)))
      ensures board.dim == BoardDim && 0 <= action < BoardDim * BoardDim ==> r.Ok?
      ensures old(Sound(obs, board.cells)) ==> Sound(obs, board.cells)
    {
      var c := ActionCoord(action);
      StepKeepsSound(obs, board.cells, c);
      var hit := board.Torpedo(c);
      ghost var fleet, cells, shots := board.Fleet(), board.cells, board.torpedosUsed;
      r := Observe(c, hit);
      assert board.Fleet() == fleet && board.cells == cells && board.torpedosUsed == shots;
    }

    /** The second half of `step`: records the torpedo's reply `hit` at `c`, raising
        ValueError for a reply other than 0 or 1 and IndexError for a column the
        observation grid lacks, then reads `done` off the board and computes the reward. */
    method Observe(c: Coord, hit: TorpedoResult) returns (r: Result<Transition, StepError>)
      requires Valid() && 0 <= c.i < BoardDim && (hit != InvalidCoordinates ==> 0 <= c.j)
      modifies state, this`obs, this`done
      ensures Valid()
      ensures hit == InvalidCoordinates ==> r == Err(ValueError) && obs == old(obs) && done == old(done)
      ensures hit != InvalidCoordinates && c.j >= BoardDim ==> r == Err(IndexError) && obs == old(obs) && done == old(done)
      ensures hit != InvalidCoordinates && c.j < BoardDim ==>
        && obs == Set(old(obs), c, ObservedValue(hit))
        && done == board.CheckGameover()
        && r == Ok(Transition(Reward(hit), done))
    {
      if hit != Miss && hit != Hit {
        r := Err(ValueError);
      } else if c.j >= BoardDim {
        r := Err(IndexError);
      } else {
        Record(c, if hit == Miss then -1 else 1);
        UpdateDone();
        var reward := -1;
        if hit == Hit {
          reward := reward + 2;
        }
        r := Ok(Transition(reward, done));
      }
    }

    /** `done` becomes whether the game is over. */
    method UpdateDone()
      modifies this`done
      ensures done == board.CheckGameover()
    {
      done := board.CheckGameover();
    }

    /** Writes `v` into the observation at `c`. */
    method Record(c: Coord, v: int)
      requires Valid() && 0 <= c.i < BoardDim && 0 <= c.j < BoardDim && -1 <= v <= 1
      modifies state, this`obs
      ensures Valid() && obs == Set(old(obs), c, v)
    {
      state[c.i, c.j] := v;
      obs := Set(obs, c, v);
    }

    /** `_overwrite_board`: plays on `b` from now on; the observation and `done` are kept. */
    method OverwriteBoard(b: Board)
      requires Valid() && b.Valid() && b.grid != state
      modifies this`board
      ensures Valid() && board == b
    {
      board := b;
    }
  }
}
