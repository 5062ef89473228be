/** The game board: a square grid, the list of ships and the count of torpedoes fired,
    all updated in place. Its state always satisfies the encoding of module BoardRules. */
module Boards {
  import opened Grid
  import opened Ships
  import opened BoardRules

  /** The `ship_config` argument, by the branch of `_spawn_ships` it takes:
      - `DefaultConfig`: the string 'default';
      - `Presets`: a list of Ships, where the empty list (like the empty string) fails at
        `presets[0]` with IndexError;
      - `Unrecognised`: a non-empty sequence whose first element is not a Ship, such as the
        string 'random' or a list of (name, size) pairs;
      - `Unsubscriptable`: a value that `presets[0]` cannot index, such as None or an int,
        which raises TypeError. */
  datatype ShipConfig = DefaultConfig | Presets(ships: seq<Ship>) | Unrecognised | Unsubscriptable

  /** What spawning does once the configuration has been read. */
  datatype SpawnPlan = RandomFleet(specs: seq<(string, int)>) | Specified(ships: seq<Ship>)

  /** `presets[0]` on an empty sequence, `presets[0]` on a value that cannot be indexed, and
      a configuration that is neither 'default' nor ships. */
  datatype BoardError = PresetsIndexError | PresetsTypeError | InvalidPresets

  datatype SpawnResult = Spawned | DrawsExhausted(placed: nat) | SpawnFailed(error: BoardError)

  /** One round of random placement: the sampled head cell and the shuffled headings. */
  datatype Draw = Draw(head: Coord, order: Shuffle)

  /** The configuration as the source reads it: an unrecognised sequence builds a ValueError
      and drops it, so nothing is placed. */
  function PlanAsWritten(config: ShipConfig): Result<SpawnPlan, BoardError>
  {
    match config
    case DefaultConfig => Ok(RandomFleet(DefaultShips))
    case Presets(ships) => if ships == [] then Err(PresetsIndexError) else Ok(Specified(ships))
    case Unrecognised => Ok(Specified([]))
    case Unsubscriptable => Err(PresetsTypeError)
  }

  /** The configuration as evidently intended: an unrecognised sequence is an error; every
      other configuration is read as the source reads it. */
  function Plan(config: ShipConfig): (p: Result<SpawnPlan, BoardError>)
    ensures p.Ok? ==> p == PlanAsWritten(config)
    ensures !config.Unrecognised? ==> p == PlanAsWritten(config)
    ensures config.Unrecognised? ==> p == Err(InvalidPresets)
  {
    match config
    case Unrecognised => Err(InvalidPresets)
    case _ => PlanAsWritten(config)
  }

  /** As written, an unrecognised configuration yields a board with no ships, whose
      game is over before the first shot. */
  lemma UnrecognisedConfigStartsFinished(dim: nat)
    ensures PlanAsWritten(Unrecognised) == Ok(Specified([]))
    ensures Encoded(Zeros(dim), []) && TotalLife([]) == 0
  {
  }

  /** Every configuration the corrected reading accepts places at least one ship. */
  lemma {:induction false} PlanPlacesShips(config: ShipConfig)
    ensures Plan(config).Ok? ==>
      match Plan(config).value
      case RandomFleet(specs) => |specs| == 5 && forall k :: 0 <= k < |specs| ==> specs[k].1 >= 2
      case Specified(ships) => ships != []
  {
  }

  function ViewOf(s: Ship): ShipView
    reads s
  {
    ShipView(s.size, s.headLoc, s.orient, s.lifePoints)
  }

  function FleetOf(ships: seq<Ship>): (fleet: seq<ShipView>)
    reads ships
    ensures |fleet| == |ships| && forall k :: 0 <= k < |ships| ==> fleet[k] == ViewOf(ships[k])
  {
    seq(|ships|, k requires 0 <= k < |ships| reads ships => ViewOf(ships[k]))
  }

  /** The five default ships, undamaged, have 17 health points between them. */
  lemma DefaultFleetLife(fleet: seq<ShipView>)
    requires |fleet| == 5
    requires forall k :: 0 <= k < 5 ==> fleet[k].life == [2, 3, 3, 4, 5][k]
    ensures TotalLife(fleet) == 17
  {
    var m := 0;
    while m < 5
      invariant 0 <= m <= 5
      invariant TotalLife(fleet[..m]) == [0, 2, 5, 8, 12, 17][m]
    {
      assert fleet[..m + 1][..m] == fleet[..m];
      m := m + 1;
    }
    assert fleet[..5] == fleet;
  }

  /** The placement loop: `v` into the head cell, then into each of the next `size - 1`
      cells along `orient`. */
  method WriteFootprint(grid: array2<int>, head: Coord, orient: Direction, size: int, v: int)
    requires forall t :: 0 <= t < FootprintLength(size) ==>
               var p := Offset(head, orient, t); 0 <= p.i < grid.Length0 && 0 <= p.j < grid.Length1
    modifies grid
    ensures forall a, b :: 0 <= a < grid.Length0 && 0 <= b < grid.Length1 ==>
              grid[a, b] == if Covers(head, orient, FootprintLength(size), Coord(a, b)) then v else old(grid[a, b])
  {
    assert Offset(head, orient, 0) == head;
    grid[head.i, head.j] := v;
    var pos := head;
    var step := 0;
    while step < size - 1
      invariant 0 <= step < FootprintLength(size)
      invariant pos == Walk(head, orient, step)
      invariant forall a, b :: 0 <= a < grid.Length0 && 0 <= b < grid.Length1 ==>
                  grid[a, b] == if Covers(head, orient, step + 1, Coord(a, b)) then v else old(grid[a, b])
    {
      WalkStep(head, orient, step);
      pos := StepInDir(pos, orient);
      grid[pos.i, pos.j] := v;
      forall a, b | 0 <= a < grid.Length0 && 0 <= b < grid.Length1
        ensures grid[a, b] == if Covers(head, orient, step + 2, Coord(a, b)) then v else old(grid[a, b])
      {
        StepExtends(head, orient, step + 1, Coord(a, b));
      }
      step := step + 1;
    }
  }

  class Board {
    const dim: nat
    const grid: array2<int>
    var ships: seq<Ship>
    var torpedosUsed: int
    /** The contents of `grid` as a value. */
    ghost var cells: Cells

    function Fleet(): seq<ShipView>
      reads this, ships
    {
      FleetOf(ships)
    }

    /** The ships' names, in order. */
    function Names(): (names: seq<string>)
      reads this, ships
      ensures |names| == |ships| && forall k :: 0 <= k < |ships| ==> names[k] == ships[k].name
    {
      var fleet := ships;
      seq(|fleet|, k requires 0 <= k < |fleet| reads fleet => fleet[k].name)
    }

    /** `grid` is `dim` by `dim` and holds exactly `cells`. */
    ghost predicate Mirrors()
      reads this, grid
    {
      && grid.Length0 == dim && grid.Length1 == dim
      && Square(cells, dim)
      && forall a, b :: 0 <= a < dim && 0 <= b < dim ==> grid[a, b] == cells[a][b]
    }

    ghost predicate Valid()
      reads this, grid, ships
    {
      && Mirrors()
      && (forall a, b :: 0 <= a < b < |ships| ==> ships[a] != ships[b])
      && Encoded(cells, Fleet())
      && torpedosUsed >= 0
    }

    /** Presets the board can take in order: distinct ships, none already on the board,
        whose footprints fit the grid one after another. */
    ghost predicate PresetsFit(presets: seq<Ship>)
      reads this, presets
    {
      && (forall a, b :: 0 <= a < b < |presets| ==> presets[a] != presets[b])
      && (forall k :: 0 <= k < |presets| ==> presets[k] !in ships)
      && LayoutFits(cells, FleetOf(presets))
    }

    /** An all-ocean grid with no ships and no torpedoes fired. */
    constructor (dim: nat)
      ensures Valid() && fresh(grid)
      ensures this.dim == dim && ships == [] && torpedosUsed == 0
      ensures cells == Zeros(dim)
    {
      this.dim := dim;
      grid := new int[dim, dim]((_, _) => 0);
      ships := [];
      torpedosUsed := 0;
      cells := Zeros(dim);
    }

    /** The ships are the first `|ships|` of the default fleet, in order, each with its default
        name and undamaged at its default size; all five have 17 health between them. */
    predicate DefaultFleet()
      reads this, ships
    {
      && |ships| <= |DefaultShips|
      && (forall k :: 0 <= k < |ships| ==>
           && ships[k].name == DefaultShips[k].0
           && ships[k].size == ships[k].lifePoints == DefaultShips[k].1)
      && (|ships| == |DefaultShips| ==> TotalLife(Fleet()) == 17)
    }

    /** A board with its ships spawned from `config`; `draws` are the random placement rounds. */
    static method Create(dim: nat, config: ShipConfig, draws: seq<Draw>) returns (b: Board, r: SpawnResult)
      requires config.Presets? ==>
        && (forall a, c :: 0 <= a < c < |config.ships| ==> config.ships[a] != config.ships[c])
        && LayoutFits(Zeros(dim), FleetOf(config.ships))
      ensures fresh(b) && fresh(b.grid) && b.Valid()
      ensures b.dim == dim && b.torpedosUsed == 0
      ensures Plan(config).Err? ==> r == SpawnFailed(Plan(config).error) && b.ships == [] && b.cells == Zeros(dim)
      ensures config.Presets? && config.ships != [] ==> r == Spawned && b.ships == config.ships
      ensures config.DefaultConfig? ==>
        && (r.Spawned? || r.DrawsExhausted?)
        && b.DefaultFleet()
        && (r.Spawned? <==> |b.ships| == |DefaultShips|)
      ensures config.DefaultConfig? && r.Spawned? ==> TotalLife(b.Fleet()) == 17
    {
      b := new Board(dim);
      r := b.SpawnShips(config, draws);
      if config.DefaultConfig? && r.Spawned? {
        assert forall k :: 0 <= k < 5 ==> DefaultShips[k].1 == [2, 3, 3, 4, 5][k];
        DefaultFleetLife(b.Fleet());
      }
    }

    function IsPositionValid(pos: Coord): (valid: bool)
      ensures valid <==> 0 <= pos.i < dim && 0 <= pos.j < dim
    {
      !(pos.i < 0 || pos.j < 0 || pos.i >= dim || pos.j >= dim)
    }

    function IsPositionValidOcean(pos: Coord): (ocean: bool)
      reads this, grid
      requires Mirrors()
      ensures ocean <==> OceanAt(cells, pos)
    {
      IsPositionValid(pos) && grid[pos.i, pos.j] == 0
    }

    /** The shot counter. */
    function Score(): (s: int)
      reads this, grid, ships
      requires Valid()
      ensures s >= 0
    {
      torpedosUsed
    }

    /** True when the ships' health adds up to zero: always with no ships, and, while no
        health is negative, exactly when every ship is sunk. */
    function CheckGameover(): (over: bool)
      reads this, ships
      ensures |ships| == 0 ==> over
      ensures (forall k :: 0 <= k < |ships| ==> ships[k].lifePoints >= 0) ==>
                (over <==> forall k :: 0 <= k < |ships| ==> ships[k].lifePoints == 0)
    {
      var fleet := Fleet();
      if forall k :: 0 <= k < |fleet| ==> fleet[k].life >= 0 then
        AllSunkIff(fleet);
        TotalLife(fleet) == 0
      else
        TotalLife(fleet) == 0
    }

    /** The game is over exactly when every ship is sunk, and exactly when no intact
        ship cell remains on the grid. */
    lemma GameoverIffAllSunk()
      requires Valid()
      ensures CheckGameover() <==> forall k :: 0 <= k < |ships| ==> ships[k].lifePoints == 0
      ensures CheckGameover() <==> forall a, b :: 0 <= a < dim && 0 <= b < dim ==> grid[a, b] <= 0
    {
      GameOverIffNoLiveCell(cells, Fleet());
      AllSunkIff(Fleet());
    }

    /** The number of ships with health left, and their total health. */
    method ShipsAfloatCount() returns (cnt: int, total: int)
      ensures cnt == AfloatCount(Fleet()) && total == AfloatLife(Fleet())
      ensures Valid() ==> total == TotalLife(Fleet()) && (cnt == 0 <==> CheckGameover())
    {
      cnt, total := 0, 0;
      for k := 0 to |ships|
        invariant cnt == AfloatCount(Fleet()[..k]) && total == AfloatLife(Fleet()[..k])
      {
        var ship := ships[k];
        assert Fleet()[..k + 1][..k] == Fleet()[..k];
        if ship.lifePoints > 0 {
          cnt := cnt + 1;
          total := total + ship.lifePoints;
        }
      }
      assert Fleet()[..|ships|] == Fleet();
      if Valid() {
        LivesNonNegative(cells, Fleet());
        AfloatMatchesTotal(Fleet());
      }
    }

    /** Fires at `coordinates`: off the grid, the error value and no change; on ocean or on
        a hit cell, a miss; on an intact ship cell, a hit that flips the cell's sign and takes
        one point off that ship. Every shot on the grid is counted. */
    method Torpedo(coordinates: Coord) returns (r: TorpedoResult)
      requires Valid()
      modifies this`torpedosUsed, this`cells, grid, ships
      ensures Valid()
      ensures r == ShotOutcome(old(cells), coordinates)
      ensures torpedosUsed == old(torpedosUsed) + (if r == InvalidCoordinates then 0 else 1)
      ensures cells == Fire(old(cells), coordinates)
      ensures Fleet() == FireFleet(old(cells), old(Fleet()), coordinates)
      ensures TotalLife(Fleet()) == old(TotalLife(Fleet())) - Indicator(r == Hit)
      ensures Names() == old(Names())
    {
      FireTotalLife(cells, Fleet(), coordinates);
      var i, j := coordinates.i, coordinates.j;
      if !IsPositionValid(coordinates) {
        return InvalidCoordinates;
      }
      CountShot();
      if grid[i, j] == 0 {
        return Miss;
      } else if grid[i, j] < 0 {
        return Miss;
      }
      Strike(coordinates);
      return Hit;
    }

    /** One more torpedo on the counter; nothing else changes. */
    method CountShot()
      requires Valid()
      modifies this`torpedosUsed
      ensures Valid()
      ensures torpedosUsed == old(torpedosUsed) + 1
    {
      torpedosUsed := torpedosUsed + 1;
    }

    /** A hit on the intact ship cell at `coordinates`: the cell changes sign and the ship it
        belongs to loses one point. */
    method Strike(coordinates: Coord)
      requires Valid()
      requires InGrid(cells, coordinates) && At(cells, coordinates) > 0
      modifies this`cells, grid, ships
      ensures Valid()
      ensures cells == Fire(old(cells), coordinates)
      ensures Fleet() == FireFleet(old(cells), old(Fleet()), coordinates)
      ensures Names() == old(Names())
    {
      var i, j := coordinates.i, coordinates.j;
      var idx := grid[i, j] - 1;
      ghost var fleet := Fleet();
      ghost var names := Names();
      ghost var afterFleet := FireFleet(cells, fleet, coordinates);
      FirePreservesEncoding(cells, fleet, coordinates);
      assert afterFleet == fleet[idx := fleet[idx].(life := fleet[idx].life - 1)];
      var hitShip := ships[idx];
      hitShip.Ouch();
      grid[i, j] := grid[i, j] * -1;
      cells := Fire(cells, coordinates);
      forall k | 0 <= k < |ships|
        ensures Fleet()[k] == afterFleet[k] && Names()[k] == names[k]
      {
        if k != idx {
          assert ships[k] != hitShip;
        }
      }
      assert Fleet() == afterFleet;
      assert Names() == names;
    }

    /** Whether the `size - 1` cells after `headPos` along `orient` are all ocean. */
    method IsValidShipPlacement(headPos: Coord, orient: Direction, size: int) returns (valid: bool)
      requires Mirrors()
      ensures valid <==> PlacementOk(cells, headPos, orient, size)
    {
      var nextPos := headPos;
      var idx := 0;
      while idx < size - 1
        invariant 0 <= idx && (size >= 1 ==> idx <= size - 1)
        invariant nextPos == Walk(headPos, orient, idx)
        invariant forall t :: 1 <= t <= idx ==> OceanAt(cells, Offset(headPos, orient, t))
      {
        WalkStep(headPos, orient, idx);
        nextPos := StepInDir(nextPos, orient);
        if !IsPositionValidOcean(nextPos) {
          return false;
        }
        idx := idx + 1;
      }
      return true;
    }

    /** Writes the ship's index (one more than the number of ships) into its footprint. */
    method PlaceShipOnGrid(ship: Ship)
      requires Mirrors()
      requires forall t :: 0 <= t < FootprintLength(ship.size) ==>
                 IsPositionValid(Offset(ship.headLoc, ship.orient, t))
      modifies this`cells, grid
      ensures Mirrors()
      ensures cells == Paint(old(cells), Footprint(ship.headLoc, ship.orient, ship.size), |ships| + 1)
    {
      var shipIdx := |ships| + 1;
      WriteFootprint(grid, ship.headLoc, ship.orient, ship.size, shipIdx);
      PaintFootprint(cells, ship.headLoc, ship.orient, ship.size, shipIdx);
      cells := Paint(cells, Footprint(ship.headLoc, ship.orient, ship.size), shipIdx);
    }

    /** Adds a ship given by the caller: its footprint is written and it joins the list. */
    method SpawnShipSpecified(ship: Ship)
      requires Valid()
      requires ship !in ships
      requires Fits(cells, ViewOf(ship))
      modifies this`ships, this`cells, grid
      ensures Valid()
      ensures ships == old(ships) + [ship]
      ensures cells == Paint(old(cells), Footprint(ship.headLoc, ship.orient, ship.size), |old(ships)| + 1)
    {
      ghost var fleet := Fleet();
      PlacePreservesEncoding(cells, fleet, ViewOf(ship));
      PlaceShipOnGrid(ship);
      ships := ships + [ship];
      assert Fleet() == fleet + [ViewOf(ship)];
    }

    /** The rounds of random placement for a ship of length `size`: a round is rejected unless
        its head is ocean and some heading, tried in the shuffled order, has ocean all along.
        Stops at the first round that passes. */
    method FindPlacement(size: int, draws: seq<Draw>) returns (found: bool, consumed: nat, headPos: Coord, orient: Direction)
      requires Mirrors()
      ensures consumed <= |draws|
      ensures forall k :: 0 <= k < consumed - Indicator(found) ==>
                !DrawFits(cells, draws[k].head, draws[k].order, size)
      ensures !found ==> consumed == |draws|
      ensures found ==>
        && 1 <= consumed && headPos == draws[consumed - 1].head
        && DrawFits(cells, headPos, draws[consumed - 1].order, size)
        && FirstFit(cells, headPos, draws[consumed - 1].order, size) == Some(orient)
    {
      found := false;
      headPos, orient := Coord(0, 0), North;
      consumed := 0;
      while !found && consumed < |draws|
        invariant consumed <= |draws|
        invariant found ==>
          && 1 <= consumed && headPos == draws[consumed - 1].head
          && DrawFits(cells, headPos, draws[consumed - 1].order, size)
          && FirstFit(cells, headPos, draws[consumed - 1].order, size) == Some(orient)
        invariant forall k :: 0 <= k < consumed - Indicator(found) ==>
                    !DrawFits(cells, draws[k].head, draws[k].order, size)
      {
        var draw := draws[consumed];
        consumed := consumed + 1;
        headPos := draw.head;
        if !IsPositionValidOcean(headPos) {
          continue;
        }
        found, orient := TryHeadings(headPos, draw.order, size);
      }
    }

    /** One round's inner loop: the headings are tried in the shuffled order, and the first
        one whose body fits is taken. */
    method TryHeadings(headPos: Coord, dirsRand: seq<Direction>, size: int) returns (found: bool, orient: Direction)
      requires Mirrors()
      ensures found <==> FirstFit(cells, headPos, dirsRand, size).Some?
      ensures found ==> FirstFit(cells, headPos, dirsRand, size) == Some(orient)
    {
      found, orient := false, North;
      var k := 0;
      while k < |dirsRand|
        invariant 0 <= k <= |dirsRand|
        invariant FirstFit(cells, headPos, dirsRand, size) == FirstFit(cells, headPos, dirsRand[k..], size)
      {
        orient := dirsRand[k];
        var valid := IsValidShipPlacement(headPos, orient, size);
        if valid {
          return true, orient;
        }
        assert dirsRand[k..][1..] == dirsRand[k + 1..];
        k := k + 1;
      }
    }

    /** Places a new ship at the first round of `draws` that passes, as FindPlacement decides.
        When the rounds run out first, nothing changes. */
    method SpawnShipRandom(name: string, size: int, draws: seq<Draw>) returns (placed: bool, consumed: nat)
      requires Valid()
      requires 1 <= size
      modifies this`ships, this`cells, grid
      ensures Valid()
      ensures consumed <= |draws|
      ensures forall k :: 0 <= k < consumed - Indicator(placed) ==>
                !DrawFits(old(cells), draws[k].head, draws[k].order, size)
      ensures !placed ==> consumed == |draws| && ships == old(ships) && cells == old(cells)
      ensures placed ==>
        && 1 <= consumed
        && DrawFits(old(cells), draws[consumed - 1].head, draws[consumed - 1].order, size)
        && |ships| == |old(ships)| + 1 && ships[..|old(ships)|] == old(ships)
        && fresh(ships[|old(ships)|]) && ships[|old(ships)|].name == name
        && var d := draws[consumed - 1];
           var orient := FirstFit(old(cells), d.head, d.order, size).value;
           && ViewOf(ships[|old(ships)|]) == ShipView(size, d.head, orient, size)
           && cells == Paint(old(cells), Footprint(d.head, orient, size), |old(ships)| + 1)
    {
      var headPos, orient;
      placed, consumed, headPos, orient := FindPlacement(size, draws);
      if placed {
        DrawFitsGivesFit(cells, headPos, draws[consumed - 1].order, size);
        var ship := new Ship(name, size, headPos, orient);
        SpawnShipSpecified(ship);
      } else {
        assert Fleet() == old(Fleet());
      }
    }

    /** The default fleet, ship by ship in order, each at random from the rounds left over by
        the ships before it. Stops when the rounds run out. */
    method SpawnDefaultFleet(draws: seq<Draw>) returns (r: SpawnResult)
      requires Valid()
      modifies this`ships, this`cells, grid
      ensures Valid()
      ensures r.Spawned? || r.DrawsExhausted?
      ensures r.Spawned? ==> |ships| == |old(ships)| + |DefaultShips|
      ensures r.DrawsExhausted? ==> |ships| == |old(ships)| + r.placed < |old(ships)| + |DefaultShips|
      ensures |old(ships)| <= |ships| && ships[..|old(ships)|] == old(ships)
      ensures forall k :: |old(ships)| <= k < |ships| ==>
        && fresh(ships[k])
        && ships[k].name == DefaultShips[k - |old(ships)|].0
        && ships[k].size == ships[k].lifePoints == DefaultShips[k - |old(ships)|].1
    {
      var pos := 0;
      var n := 0;
      while n < |DefaultShips|
        invariant 0 <= n <= |DefaultShips| && 0 <= pos <= |draws|
        invariant Valid()
        invariant |ships| == |old(ships)| + n && ships[..|old(ships)|] == old(ships)
        invariant forall k :: |old(ships)| <= k < |ships| ==>
          && fresh(ships[k])
          && ships[k].name == DefaultShips[k - |old(ships)|].0
          && ships[k].size == ships[k].lifePoints == DefaultShips[k - |old(ships)|].1
      {
        var placed, used := SpawnDefaultShip(n, draws[pos..]);
        if !placed {
          return DrawsExhausted(n);
        }
        pos := pos + used;
        n := n + 1;
      }
      return Spawned;
    }

    /** Default ship number `n`, spawned at random: on success it is a fresh ship with the
        default name and an undamaged hull of the default length, appended to the fleet. */
    method SpawnDefaultShip(n: nat, draws: seq<Draw>) returns (placed: bool, used: nat)
      requires Valid() && n < |DefaultShips|
      modifies this`ships, this`cells, grid
      ensures Valid() && used <= |draws|
      ensures !placed ==> ships == old(ships)
      ensures placed ==>
        && |ships| == |old(ships)| + 1 && ships == old(ships) + [ships[|old(ships)|]]
        && fresh(ships[|old(ships)|])
        && ships[|old(ships)|].name == DefaultShips[n].0
        && ships[|old(ships)|].size == ships[|old(ships)|].lifePoints == DefaultShips[n].1
    {
      var (name, size) := DefaultShips[n];
      placed, used := SpawnShipRandom(name, size, draws);
    }

    /** The given ships, placed one after another where they say they lie. */
    method SpawnPresets(presets: seq<Ship>)
      requires Valid()
      requires PresetsFit(presets)
      modifies this`ships, this`cells, grid
      ensures Valid()
      ensures ships == old(ships) + presets
    {
      ghost var views := FleetOf(presets);
      var k := 0;
      while k < |presets|
        invariant 0 <= k <= |presets|
        invariant Valid()
        invariant ships == old(ships) + presets[..k]
        invariant forall m :: k <= m < |presets| ==> presets[m] !in ships && ViewOf(presets[m]) == views[m]
        invariant LayoutFits(cells, views[k..])
      {
        SpawnPresetAt(presets, views, k);
        assert presets[..k + 1] == presets[..k] + [presets[k]];
        k := k + 1;
      }
    }

    /** One round of SpawnPresets: ship `k` goes on the board, and the ships after it still fit. */
    method SpawnPresetAt(presets: seq<Ship>, ghost views: seq<ShipView>, k: nat)
      requires Valid()
      requires k < |presets| == |views| && presets[k] !in ships && ViewOf(presets[k]) == views[k]
      requires LayoutFits(cells, views[k..])
      modifies this`ships, this`cells, grid
      ensures Valid()
      ensures ships == old(ships) + [presets[k]]
      ensures LayoutFits(cells, views[k + 1..])
    {
      ghost var before := cells;
      assert views[k..][0] == views[k];
      SpawnShipSpecified(presets[k]);
      PaintKeepsLayout(before, views, k, |ships|);
    }

    /** Spawns the configured ships: the default fleet at random, or the given ships as they are. */
    method SpawnShips(config: ShipConfig, draws: seq<Draw>) returns (r: SpawnResult)
      requires Valid()
      requires config.Presets? ==> PresetsFit(config.ships)
      modifies this`ships, this`cells, grid
      ensures Valid()
      ensures |old(ships)| <= |ships| && ships[..|old(ships)|] == old(ships)
      ensures Plan(config).Err? ==>
        r == SpawnFailed(Plan(config).error) && ships == old(ships) && cells == old(cells)
      ensures config.Presets? && config.ships != [] ==> r == Spawned && ships == old(ships) + config.ships
      ensures config.DefaultConfig? ==>
        && (r.Spawned? ==> |ships| == |old(ships)| + |DefaultShips|)
        && (r.DrawsExhausted? ==> |ships| == |old(ships)| + r.placed < |old(ships)| + |DefaultShips|)
        && (r.Spawned? || r.DrawsExhausted?)
        && forall k :: |old(ships)| <= k < |ships| ==>
             && fresh(ships[k])
             && ships[k].name == DefaultShips[k - |old(ships)|].0
             && ships[k].size == ships[k].lifePoints == DefaultShips[k - |old(ships)|].1
    {
      match config {
        case DefaultConfig =>
          r := SpawnDefaultFleet(draws);
        case Presets(presets) =>
          if presets == [] {
            return SpawnFailed(PresetsIndexError);
          }
          SpawnPresets(presets);
          r := Spawned;
        case Unrecognised =>
          r := SpawnFailed(InvalidPresets);
        case Unsubscriptable =>
          r := SpawnFailed(PresetsTypeError);
      }
    }
  }
}
