/** The hunting agent: probes random unprobed cells, and after a hit fires at the
    unprobed neighbours it queued, most recent first, until the queue is empty. */
module LessTrivialAgents {
  import opened Grid
  import opened Ships
  import opened BoardRules
  import opened Boards
  import opened ProbeRules

  /** The four cardinal neighbours of `c` in the order the agent lists them: right, left,
      down, up. */
  function Neighbours(c: Coord): (ns: seq<Coord>)
    ensures |ns| == 4
    ensures forall k :: 0 <= k < 4 ==> (ns[k].i - c.i) * (ns[k].i - c.i) + (ns[k].j - c.j) * (ns[k].j - c.j) == 1
    ensures forall k, m :: 0 <= k < m < 4 ==> ns[k] != ns[m]
  {
    [Coord(c.i, c.j + 1), Coord(c.i, c.j - 1), Coord(c.i + 1, c.j), Coord(c.i - 1, c.j)]
  }

  /** A cell worth queueing: on the `dim` by `dim` board and not probed yet. */
  predicate Unexplored(probed: Cells, dim: int, p: Coord)
  {
    0 <= p.i < dim && 0 <= p.j < dim && InGrid(probed, p) && At(probed, p) == 0
  }

  /** The cells of `ns` worth queueing, in their order. */
  function KeepUnexplored(probed: Cells, dim: int, ns: seq<Coord>): seq<Coord>
  {
    if ns == [] then []
    else KeepUnexplored(probed, dim, ns[..|ns| - 1]) +
         (if Unexplored(probed, dim, ns[|ns| - 1]) then [ns[|ns| - 1]] else [])
  }

  /** What a hit at `c` queues: its unexplored neighbours. */
  function Region(probed: Cells, dim: int, c: Coord): seq<Coord>
  {
    KeepUnexplored(probed, dim, Neighbours(c))
  }

  /** KeepUnexplored keeps exactly the unexplored cells of `ns` and no more of them. */
  lemma {:induction false} KeepUnexploredSpec(probed: Cells, dim: int, ns: seq<Coord>)
    ensures |KeepUnexplored(probed, dim, ns)| <= |ns|
    ensures forall p :: p in KeepUnexplored(probed, dim, ns) <==> p in ns && Unexplored(probed, dim, p)
  {
    if ns != [] {
      var init := ns[..|ns| - 1];
      KeepUnexploredSpec(probed, dim, init);
      assert ns == init + [ns[|ns| - 1]];
    }
  }

  /** The filter keeps order: filtering `xs + ys` keeps what `xs` keeps, followed by what `ys`
      keeps. */
  lemma {:induction false} KeepUnexploredConcat(probed: Cells, dim: int, xs: seq<Coord>, ys: seq<Coord>)
    ensures KeepUnexplored(probed, dim, xs + ys) ==
            KeepUnexplored(probed, dim, xs) + KeepUnexplored(probed, dim, ys)
  {
    if ys == [] {
      assert xs + ys == xs;
    } else {
      var init := ys[..|ys| - 1];
      var last := ys[|ys| - 1];
      var tail := if Unexplored(probed, dim, last) then [last] else [];
      KeepUnexploredConcat(probed, dim, xs, init);
      assert (xs + ys)[..|xs + ys| - 1] == xs + init;
      assert (xs + ys)[|xs + ys| - 1] == last;
      assert KeepUnexplored(probed, dim, xs + ys) == KeepUnexplored(probed, dim, xs + init) + tail;
      assert KeepUnexplored(probed, dim, ys) == KeepUnexplored(probed, dim, init) + tail;
    }
  }

  /** A single cell is kept exactly when it is unexplored. */
  lemma KeepOne(probed: Cells, dim: int, p: Coord)
    ensures KeepUnexplored(probed, dim, [p]) == if Unexplored(probed, dim, p) then [p] else []
  {
    assert [p][..0] == [];
  }

  /** A hit at `c` queues its unexplored neighbours in the order right, left, down, up, so
      the LIFO pops that follow take the upper neighbour first and the right one last. */
  lemma RegionOrder(probed: Cells, dim: int, c: Coord)
    ensures Region(probed, dim, c) ==
            KeepUnexplored(probed, dim, [Coord(c.i, c.j + 1)]) + KeepUnexplored(probed, dim, [Coord(c.i, c.j - 1)]) +
            KeepUnexplored(probed, dim, [Coord(c.i + 1, c.j)]) + KeepUnexplored(probed, dim, [Coord(c.i - 1, c.j)])
  {
    var ns := Neighbours(c);
    KeepUnexploredConcat(probed, dim, ns[..3], [ns[3]]);
    KeepUnexploredConcat(probed, dim, ns[..2], [ns[2]]);
    KeepUnexploredConcat(probed, dim, ns[..1], [ns[1]]);
    assert ns[..3] + [ns[3]] == ns;
    assert ns[..2] + [ns[2]] == ns[..3];
    assert ns[..1] + [ns[1]] == ns[..2];
    assert ns[..1] == [ns[0]];
  }

  /** Nothing is kept from cells none of which is worth queueing. */
  lemma {:induction false} KeepNone(probed: Cells, dim: int, ns: seq<Coord>)
    requires forall k :: 0 <= k < |ns| ==> !Unexplored(probed, dim, ns[k])
    ensures KeepUnexplored(probed, dim, ns) == []
  {
    if ns != [] {
      KeepNone(probed, dim, ns[..|ns| - 1]);
    }
  }

  /** A hit queues at most four cells, each next to it, on the board and unprobed; every
      neighbour that is on the board and unprobed is queued. */
  lemma RegionSpec(probed: Cells, dim: int, c: Coord)
    ensures |Region(probed, dim, c)| <= 4
    ensures forall p :: p in Region(probed, dim, c) <==> p in Neighbours(c) && Unexplored(probed, dim, p)
  {
    KeepUnexploredSpec(probed, dim, Neighbours(c));
  }

  /** Every queued cell is on the `dim` by `dim` board. */
  predicate OnBoard(q: seq<Coord>, dim: int)
  {
    forall k :: 0 <= k < |q| ==> 0 <= q[k].i < dim && 0 <= q[k].j < dim
  }

  /** Queueing a region keeps every queued cell on the board. */
  lemma RegionOnBoard(q: seq<Coord>, probed: Cells, dim: int, c: Coord)
    ensures OnBoard(q, dim) ==> OnBoard(q + Region(probed, dim, c), dim)
  {
    RegionSpec(probed, dim, c);
    var r := Region(probed, dim, c);
    if OnBoard(q, dim) {
      forall k | 0 <= k < |q + r|
        ensures 0 <= (q + r)[k].i < dim && 0 <= (q + r)[k].j < dim
      {
        if k >= |q| {
          assert (q + r)[k] == r[k - |q|] && r[k - |q|] in r;
        }
      }
    }
  }

  /** The hunting flag after a random probe as written: any hit starts a hunt, even one
      that queued nothing. */
  function HuntingAfterProbeAsWritten(hunting: bool, hit: bool, deque: seq<Coord>): bool
  {
    if hit then true else hunting
  }

  /** The hunting flag after a random probe, corrected the way `hunt` already does it: a hit
      starts a hunt only when there is something queued to hunt. */
  function HuntingAfterProbe(hunting: bool, hit: bool, deque: seq<Coord>): (h: bool)
    ensures (hit || hunting == (deque != [])) ==> h == (deque != [])
  {
    if hit then deque != [] else hunting
  }

  /** A position the agent can reach: a 2 by 2 board with one-cell ships at (0, 0) and
      (1, 1), after random misses at (0, 1) and (1, 0). */
  function ExampleCells(): Cells
  {
    [[1, 0], [0, 2]]
  }

  function ExampleFleet(): seq<ShipView>
  {
    [ShipView(1, Coord(0, 0), North, 1), ShipView(1, Coord(1, 1), North, 1)]
  }

  function ExampleProbed(): Cells
  {
    [[0, 1], [1, 0]]
  }

  /** On a 2 by 2 grid the count of `x` is the number of the four cells holding it. */
  lemma CountTwoByTwo(g: Cells, x: int)
    requires Square(g, 2)
    ensures Count(g, x) == Indicator(g[0][0] == x) + Indicator(g[0][1] == x) +
                           Indicator(g[1][0] == x) + Indicator(g[1][1] == x)
  {
    var init := g[..1];
    assert init[..0] == [] && init[0] == g[0];
    assert Count(init, x) == RowCount(g[0], x);
    RowCountTwo(g[0], x);
    RowCountTwo(g[1], x);
  }

  lemma RowCountTwo(row: seq<int>, x: int)
    requires |row| == 2
    ensures RowCount(row, x) == Indicator(row[0] == x) + Indicator(row[1] == x)
  {
    var init := row[..1];
    assert init[..0] == [] && init[0] == row[0];
    assert RowCount(init, x) == Indicator(row[0] == x);
  }

  /** The example is a consistent board and probe grid. */
  lemma ExampleIsConsistent()
    ensures Encoded(ExampleCells(), ExampleFleet())
    ensures ProbeGrid(ExampleProbed(), 2) && Spent(ExampleProbed(), ExampleCells())
  {
    var cells := ExampleCells();
    var fleet := ExampleFleet();
    forall x | x in {1, -1, 2, -2}
      ensures Count(cells, x) == (if x == 1 || x == 2 then 1 else 0)
    {
      CountTwoByTwo(cells, x);
    }
    assert CountsMatch(cells, fleet) by {
      assert Count(cells, 1) == 1 && Count(cells, -1) == 0;
      assert Count(cells, 2) == 1 && Count(cells, -2) == 0;
    }
    assert FootprintsMarked(cells, fleet) by {
      assert Offset(Coord(0, 0), North, 0) == Coord(0, 0);
      assert Offset(Coord(1, 1), North, 0) == Coord(1, 1);
    }
  }

  /** As written, a random probe can start a hunt with nothing queued while a ship is still
      afloat, so the next `hunt` pops an empty deque: in the example, the hit at (0, 0) has no
      unexplored neighbour and the ship at (1, 1) is untouched. The corrected flag stays off. */
  lemma ProbeCanStrandHunt()
    ensures ExampleProbed()[0][0] == 0 && ShotOutcome(ExampleCells(), Coord(0, 0)) == Hit
    ensures Region(Set(ExampleProbed(), Coord(0, 0), 1), 2, Coord(0, 0)) == []
    ensures Encoded(ExampleCells(), ExampleFleet()) &&
            TotalLife(FireFleet(ExampleCells(), ExampleFleet(), Coord(0, 0))) == 1
    ensures HuntingAfterProbeAsWritten(false, true, []) && !HuntingAfterProbe(false, true, [])
  {
    ExampleIsConsistent();
    var c := Coord(0, 0);
    var marked := Set(ExampleProbed(), c, 1);
    var ns := Neighbours(c);
    assert marked[0][1] == 1 && marked[1][0] == 1;
    assert forall k :: 0 <= k < |ns| ==> !Unexplored(marked, 2, ns[k]);
    KeepNone(marked, 2, ns);
    var fleet := FireFleet(ExampleCells(), ExampleFleet(), c);
    assert fleet[..1][..0] == [];
  }

  /** A cell can be queued twice: on a 3 by 3 board, a hit at (0, 0) queues (0, 1), and a
      later hit at (1, 1), reached through (1, 0) while (0, 1) still waits in the deque,
      queues it again. `hunt` fires at every popped cell without looking at the probed
      grid, so the second copy is a second torpedo at the same cell. */
  lemma CellCanBeQueuedTwice()
    ensures Coord(0, 1) in Region(Set(Zeros(3), Coord(0, 0), 1), 3, Coord(0, 0))
    ensures Coord(0, 1) in Region(Set(Set(Set(Zeros(3), Coord(0, 0), 1), Coord(1, 0), 1), Coord(1, 1), 1), 3, Coord(1, 1))
  {
    var first := Set(Zeros(3), Coord(0, 0), 1);
    var later := Set(Set(first, Coord(1, 0), 1), Coord(1, 1), 1);
    RegionSpec(first, 3, Coord(0, 0));
    RegionSpec(later, 3, Coord(1, 1));
    assert Coord(0, 1) in Neighbours(Coord(0, 0)) && Coord(0, 1) in Neighbours(Coord(1, 1));
    assert first[0][1] == 0 && later[0][1] == 0;
  }

  class LessTrivialAgent {
    const board: Board
    /** `agnt_grid`: 1 where the agent has fired, 0 elsewhere. */
    const agntGrid: array2<int>
    /** The contents of `agntGrid` as a value. */
    ghost var probed: Cells
    /** The queued cells; the last one is popped first. */
    var deque: seq<Coord>
    var hunting: bool

    /** `agntGrid` is `dim` by `dim` and holds exactly `probed`, a grid of 0s and 1s. */
    ghost predicate Mirrors()
      reads this`probed, agntGrid
    {
      && agntGrid.Length0 == board.dim && agntGrid.Length1 == board.dim
      && ProbeGrid(probed, board.dim)
      && forall a, b :: 0 <= a < board.dim && 0 <= b < board.dim ==> agntGrid[a, b] == probed[a][b]
    }

    /** The board is consistent, every probed cell has been fired at, every queued cell is on
        the board, and the agent hunts exactly when something is queued. */
    ghost predicate Valid()
      reads this, agntGrid, board, board.grid, board.ships
    {
      ShotsValid() && QueueValid()
    }

    /** Every queued cell is on the board, and the agent hunts exactly when something is
        queued. */
    ghost predicate QueueValid()
      reads this`deque, this`hunting
    {
      OnBoard(deque, board.dim) && (hunting <==> deque != [])
    }

    /** The board is consistent and every probed cell has been fired at. */
    ghost predicate ShotsValid()
      reads this`probed, agntGrid, board, board.grid, board.ships
    {
      && board.Valid()
      && agntGrid != board.grid
      && Mirrors()
      && Spent(probed, board.cells)
    }

    /** Takes over `given`, or a new 10 by 10 board with the default fleet placed from `draws`;
        nothing is probed or queued, and the agent is not hunting. */
    constructor (given: Board?, draws: seq<Draw>)
      requires given != null ==> given.Valid()
      ensures Valid() && fresh(agntGrid)
      ensures given != null ==> board == given
      ensures given == null ==>
        && fresh(board) && board.dim == 10 && board.torpedosUsed == 0
        && board.DefaultFleet()
      ensures probed == Zeros(board.dim) && deque == [] && !hunting
    {
      var dim := if given == null then 10 else given.dim;
      agntGrid := new int[dim, dim]((_, _) => 0);
      probed := Zeros(dim);
      deque := [];
      hunting := false;
      var b: Board;
      if given == null {
        var spawned;
        b, spawned := Board.Create(10, DefaultConfig, draws);
      } else {
        b := given;
      }
      board := b;
    }

    /** Appends the unexplored neighbours of `center` to the deque, in neighbour order. */
    method AddRegionToDeque(center: Coord)
      requires Mirrors()
      modifies this`deque
      ensures deque == old(deque) + Region(probed, board.dim, center)
      ensures OnBoard(old(deque), board.dim) ==> OnBoard(deque, board.dim)
    {
      RegionOnBoard(deque, probed, board.dim, center);
      var neighbours := Neighbours(center);
      for k := 0 to |neighbours|
        invariant deque == old(deque) + KeepUnexplored(probed, board.dim, neighbours[..k])
      {
        var n := neighbours[k];
        assert neighbours[..k + 1][..k] == neighbours[..k];
        if board.IsPositionValid(n) {
          if agntGrid[n.i, n.j] == 0 {
            deque := deque + [n];
          }
        }
      }
      assert neighbours[..|neighbours|] == neighbours;
    }

    /** Sets the cell `c` of `agntGrid` to 1. */
    method Mark(c: Coord)
      requires Mirrors() && 0 <= c.i < board.dim && 0 <= c.j < board.dim
      modifies this`probed, agntGrid
      ensures Mirrors() && probed == Set(old(probed), c, 1)
      ensures unchanged(board) && unchanged(board.ships)
    {
      agntGrid[c.i, c.j] := 1;
      probed := Set(probed, c, 1);
    }

    /** Fires at `c` and marks it probed, whether or not it was probed before; a cell probed
        before is spent, so the shot misses. The deque and the flag are not touched. */
    method Shoot(c: Coord) returns (hit: TorpedoResult)
      requires ShotsValid() && 0 <= c.i < board.dim && 0 <= c.j < board.dim
      modifies this`probed, agntGrid, board`torpedosUsed, board`cells, board.grid, board.ships
      ensures ShotsValid()
      ensures hit == ShotOutcome(old(board.cells), c) && hit != InvalidCoordinates
      ensures old(probed[c.i][c.j]) != 0 ==> hit == Miss
      ensures board.cells == Fire(old(board.cells), c)
      ensures board.Fleet() == FireFleet(old(board.cells), old(board.Fleet()), c)
      ensures board.torpedosUsed == old(board.torpedosUsed) + 1
      ensures probed == Set(old(probed), c, 1)
      ensures Count(probed, 0) == old(Count(probed, 0)) - Indicator(old(probed[c.i][c.j]) == 0)
    {
      MarkCounts(probed, c);
      ProbeSpends(probed, board.cells, c);
      hit := board.Torpedo(c);
      ghost var fleet := board.Fleet();
      Mark(c);
      assert board.Fleet() == fleet;
    }

    /** Pops the most recently queued cell, fires at it and marks it, and on a hit queues its
        unexplored neighbours; hunting stops when the deque runs empty. Either one more cell
        is probed, or a cell probed before was fired at again, missed, and the deque shrank. */
    method Hunt()
      requires Valid() && hunting
      modifies this`probed, agntGrid, this`deque, this`hunting
      modifies board`torpedosUsed, board`cells, board.grid, board.ships
      ensures Valid()
      ensures var c := old(deque[|deque| - 1]);
        && board.cells == Fire(old(board.cells), c)
        && board.Fleet() == FireFleet(old(board.cells), old(board.Fleet()), c)
        && board.torpedosUsed == old(board.torpedosUsed) + 1
        && probed == Set(old(probed), c, 1)
        && deque == old(deque[..|deque| - 1]) +
                    (if ShotOutcome(old(board.cells), c) == Hit then Region(probed, board.dim, c) else [])
      ensures || Count(probed, 0) < old(Count(probed, 0))
              || (Count(probed, 0) == old(Count(probed, 0)) && |deque| < old(|deque|))
    {
      var probeHere := deque[|deque| - 1];
      ghost var rest := deque[..|deque| - 1];
      var hit := Shoot(probeHere);
      ghost var fleet, marked := board.Fleet(), probed;
      assert hit != Miss <==> ShotOutcome(old(board.cells), probeHere) == Hit;
      QueueAfterHunt(probeHere, hit);
      assert board.Fleet() == fleet && probed == marked;
      assert deque == rest + (if hit != Miss then Region(marked, board.dim, probeHere) else []);
    }

    /** The end of a hunt step at `c`: `if hit:` in the source, so a hit (a queued cell is on
        the board, so the reply is a hit or a miss) queues the region of `c` and hunting
        goes on exactly while something is queued. */
    method QueueAfterHunt(c: Coord, hit: TorpedoResult)
      requires Mirrors() && OnBoard(deque, board.dim) && hunting && deque != []
      modifies this`deque, this`hunting
      ensures QueueValid()
      ensures deque == old(deque[..|deque| - 1]) + (if hit != Miss then Region(probed, board.dim, c) else [])
    {
      deque := deque[..|deque| - 1];
      if hit != Miss {
        hunting := true;
        AddRegionToDeque(c);
      }
      if |deque| == 0 {
        hunting := false;
      }
    }

    /** The random search: the samples are tried in turn until one names an unprobed cell. */
    method FindUnprobed(samples: seq<Coord>) returns (found: bool, consumed: nat)
      requires Mirrors()
      requires forall k :: 0 <= k < |samples| ==> 0 <= samples[k].i < board.dim && 0 <= samples[k].j < board.dim
      ensures consumed <= |samples|
      ensures forall k :: 0 <= k < consumed - Indicator(found) ==> probed[samples[k].i][samples[k].j] != 0
      ensures !found ==> consumed == |samples|
      ensures found ==> 1 <= consumed && probed[samples[consumed - 1].i][samples[consumed - 1].j] == 0
    {
      found, consumed := false, 0;
      while consumed < |samples|
        invariant consumed <= |samples|
        invariant forall k :: 0 <= k < consumed ==> probed[samples[k].i][samples[k].j] != 0
      {
        var sample := samples[consumed];
        consumed := consumed + 1;
        if agntGrid[sample.i, sample.j] == 0 {
          found := true;
          return;
        }
      }
    }

    /** Fires at the unprobed cell `sample` and marks it; on a hit queues its unexplored
        neighbours and hunts when that queued something. */
    method ProbeAt(sample: Coord) returns (hit: TorpedoResult)
      requires Valid()
      requires 0 <= sample.i < board.dim && 0 <= sample.j < board.dim && probed[sample.i][sample.j] == 0
      modifies this`probed, agntGrid, this`deque, this`hunting
      modifies board`torpedosUsed, board`cells, board.grid, board.ships
      ensures Valid()
      ensures hit == ShotOutcome(old(board.cells), sample) && hit != InvalidCoordinates
      ensures board.cells == Fire(old(board.cells), sample)
      ensures board.Fleet() == FireFleet(old(board.cells), old(board.Fleet()), sample)
      ensures board.torpedosUsed == old(board.torpedosUsed) + 1
      ensures probed == Set(old(probed), sample, 1) && Count(probed, 0) == old(Count(probed, 0)) - 1
      ensures deque == old(deque) + (if hit == Hit then Region(probed, board.dim, sample) else [])
      ensures hunting == HuntingAfterProbe(old(hunting), hit == Hit, deque)
    {
      hit := Shoot(sample);
      ghost var fleet := board.Fleet();
      QueueAfterProbe(sample, hit);
      assert board.Fleet() == fleet;
    }

    /** The end of a random probe at `c`: a hit queues the region of `c` and, corrected,
        starts a hunt only when that queued something. */
    method QueueAfterProbe(c: Coord, hit: TorpedoResult)
      requires Mirrors() && QueueValid()
      modifies this`deque, this`hunting
      ensures QueueValid()
      ensures deque == old(deque) + (if hit != Miss then Region(probed, board.dim, c) else [])
      ensures hunting == HuntingAfterProbe(old(hunting), hit != Miss, deque)
    {
      if hit != Miss {
        AddRegionToDeque(c);
        hunting := |deque| != 0;
      }
    }

    /** One random probe: the first sample naming an unprobed cell is fired at as ProbeAt
        says; when every sample names a probed cell nothing changes. */
    method RandomProbe(samples: seq<Coord>) returns (found: bool, consumed: nat)
      requires Valid()
      requires forall k :: 0 <= k < |samples| ==> 0 <= samples[k].i < board.dim && 0 <= samples[k].j < board.dim
      modifies this`probed, agntGrid, this`deque, this`hunting
      modifies board`torpedosUsed, board`cells, board.grid, board.ships
      ensures Valid()
      ensures consumed <= |samples|
      ensures forall k :: 0 <= k < consumed - Indicator(found) ==> old(probed[samples[k].i][samples[k].j]) != 0
      ensures !found ==>
        && consumed == |samples| && probed == old(probed) && board.cells == old(board.cells)
        && deque == old(deque) && hunting == old(hunting) && board.torpedosUsed == old(board.torpedosUsed)
        && board.Fleet() == old(board.Fleet())
      ensures found ==>
        && 1 <= consumed
        && var c := samples[consumed - 1];
           var h := ShotOutcome(old(board.cells), c);
           && old(probed[c.i][c.j]) == 0
           && board.cells == Fire(old(board.cells), c)
           && board.Fleet() == FireFleet(old(board.cells), old(board.Fleet()), c)
           && probed == Set(old(probed), c, 1)
           && Count(probed, 0) == old(Count(probed, 0)) - 1
           && board.torpedosUsed == old(board.torpedosUsed) + 1
           && deque == old(deque) + (if h == Hit then Region(probed, board.dim, c) else [])
           && hunting == HuntingAfterProbe(old(hunting), h == Hit, deque)
    {
      found, consumed := FindUnprobed(samples);
      if found {
        var _ := ProbeAt(samples[consumed - 1]);
      }
    }

    /** Plays until the game is over: a random probe when not hunting, a hunt step when
        hunting. The hunt steps always come to an end; only running out of samples in a
        random probe stops the game early, and `finished` says whether that happened. */
    method PlayUntilCompletion(samples: seq<Coord>) returns (finished: bool, score: int)
      requires Valid()
      requires forall k :: 0 <= k < |samples| ==> 0 <= samples[k].i < board.dim && 0 <= samples[k].j < board.dim
      modifies this`probed, agntGrid, this`deque, this`hunting
      modifies board`torpedosUsed, board`cells, board.grid, board.ships
      ensures Valid()
      ensures finished <==> board.CheckGameover()
      ensures score == board.torpedosUsed
      ensures OnlyMarks(old(probed), probed, board.dim)
    {
      var pos := 0;
      while !board.CheckGameover()
        invariant Valid() && 0 <= pos <= |samples|
        invariant OnlyMarks(old(probed), probed, board.dim)
        decreases Count(probed, 0), |deque|
      {
        ghost var before := probed;
        if !hunting {
          var found, used := RandomProbe(samples[pos..]);
          if found {
            MarkKeepsOnlyMarks(old(probed), before, probed, samples[pos..][used - 1], board.dim);
          }
          pos := pos + used;
          if !found {
            return false, board.Score();
          }
        } else {
          ghost var c := deque[|deque| - 1];
          Hunt();
          MarkKeepsOnlyMarks(old(probed), before, probed, c, board.dim);
        }
      }
      return true, board.Score();
    }
  }
}
