/** The rules of the board seen as values: footprints, the grid/fleet encoding, what a
    torpedo does to the grid and the fleet, and when the game is over. The `Board` class
    in module Boards keeps its state equal to these values. */
module BoardRules {
  import opened Grid
  import opened Ships

  datatype Option<T> = None | Some(value: T)

  datatype Result<T, E> = Ok(value: T) | Err(error: E)

  /** What the board knows of one ship: its length, placement and remaining health. */
  datatype ShipView = ShipView(size: int, head: Coord, orient: Direction, life: int)

  /** What a torpedo call returns: 0, 1, or the error value for coordinates off the grid. */
  datatype TorpedoResult = Miss | Hit | InvalidCoordinates

  /** The standard fleet, placed at random. */
  const DefaultShips: seq<(string, int)> :=
    [("destroyer", 2), ("submarine", 3), ("cruiser", 3), ("battleship", 4), ("carrier", 5)]

  /** One step from `pos` along `orient`. */
  function StepInDir(pos: Coord, orient: Direction): (r: Coord)
    ensures r == Offset(pos, orient, 1)
    ensures r != pos
  {
    Coord(pos.i + orient.Delta().i, pos.j + orient.Delta().j)
  }

  /** The cell `t` steps from `head` along `orient`. */
  function Offset(head: Coord, orient: Direction, t: int): Coord
  {
    match orient
    case North => Coord(head.i - t, head.j)
    case South => Coord(head.i + t, head.j)
    case East => Coord(head.i, head.j + t)
    case West => Coord(head.i, head.j - t)
  }

  /** `steps` applications of StepInDir, as the placement loops perform them. */
  function Walk(pos: Coord, orient: Direction, steps: nat): Coord
  {
    if steps == 0 then pos else StepInDir(Walk(pos, orient, steps - 1), orient)
  }

  /** Stepping `t` times lands `t` cells away along the heading. */
  lemma {:induction false} WalkIsOffset(pos: Coord, orient: Direction, steps: nat)
    ensures Walk(pos, orient, steps) == Offset(pos, orient, steps)
  {
    if steps > 0 {
      WalkIsOffset(pos, orient, steps - 1);
    }
  }

  /** One more step extends the walk to the next cell along the heading. */
  lemma WalkStep(head: Coord, orient: Direction, n: nat)
    ensures StepInDir(Walk(head, orient, n), orient) == Walk(head, orient, n + 1) == Offset(head, orient, n + 1)
  {
    WalkIsOffset(head, orient, n + 1);
  }

  /** Placement always writes the head, then `size - 1` further cells. */
  function FootprintLength(size: int): nat
  {
    if size < 1 then 1 else size
  }

  /** The cells a ship placement writes, head first. */
  function Footprint(head: Coord, orient: Direction, size: int): (fp: seq<Coord>)
    ensures |fp| == FootprintLength(size)
    ensures forall t :: 0 <= t < |fp| ==> fp[t] == Offset(head, orient, t)
  {
    seq(FootprintLength(size), t => Offset(head, orient, t))
  }

  /** `p` is one of the first `n` cells from `head` along `orient`. */
  predicate Covers(head: Coord, orient: Direction, n: int, p: Coord)
  {
    match orient
    case North => p.j == head.j && 0 <= head.i - p.i < n
    case South => p.j == head.j && 0 <= p.i - head.i < n
    case East => p.i == head.i && 0 <= p.j - head.j < n
    case West => p.i == head.i && 0 <= head.j - p.j < n
  }

  /** One more step along the heading extends the covered stretch by exactly the cell it
      reaches. */
  lemma StepExtends(head: Coord, orient: Direction, n: nat, p: Coord)
    ensures Covers(head, orient, n + 1, p) <==> Covers(head, orient, n, p) || p == Offset(head, orient, n)
  {
  }

  lemma FootprintMembership(head: Coord, orient: Direction, size: int, p: Coord)
    ensures p in Footprint(head, orient, size) <==> Covers(head, orient, FootprintLength(size), p)
  {
    var fp := Footprint(head, orient, size);
    if Covers(head, orient, FootprintLength(size), p) {
      var t := match orient
        case North => head.i - p.i
        case South => p.i - head.i
        case East => p.j - head.j
        case West => head.j - p.j;
      assert fp[t] == p;
    }
  }

  /** Painting a footprint sets exactly the covered cells. */
  lemma PaintFootprint(cells: Cells, head: Coord, orient: Direction, size: int, v: int)
    ensures forall a, b :: 0 <= a < |cells| && 0 <= b < |cells[a]| ==>
              Paint(cells, Footprint(head, orient, size), v)[a][b] ==
              if Covers(head, orient, FootprintLength(size), Coord(a, b)) then v else cells[a][b]
  {
    forall a, b | 0 <= a < |cells| && 0 <= b < |cells[a]|
      ensures Paint(cells, Footprint(head, orient, size), v)[a][b] ==
              if Covers(head, orient, FootprintLength(size), Coord(a, b)) then v else cells[a][b]
    {
      FootprintMembership(head, orient, size, Coord(a, b));
    }
  }

  /** The cell exists and is ocean (0). */
  predicate OceanAt(cells: Cells, p: Coord)
  {
    InGrid(cells, p) && At(cells, p) == 0
  }

  /** Every cell after the head, up to `size - 1` steps, is ocean. */
  predicate PlacementOk(cells: Cells, head: Coord, orient: Direction, size: int)
  {
    forall t :: 1 <= t < size ==> OceanAt(cells, Offset(head, orient, t))
  }

  /** A ship that may be added: at least one cell long, undamaged, its whole footprint ocean. */
  predicate Fits(cells: Cells, s: ShipView)
  {
    && 1 <= s.size
    && s.life == s.size
    && forall t :: 0 <= t < s.size ==> OceanAt(cells, Offset(s.head, s.orient, t))
  }

  /** Ships that can all be added in order: each fits, and no two footprints share a cell. */
  predicate LayoutFits(cells: Cells, views: seq<ShipView>)
  {
    && (forall k :: 0 <= k < |views| ==> Fits(cells, views[k]))
    && (forall k1, k2, t1, t2 ::
          0 <= k1 < k2 < |views| && 0 <= t1 < views[k1].size && 0 <= t2 < views[k2].size ==>
          Offset(views[k1].head, views[k1].orient, t1) != Offset(views[k2].head, views[k2].orient, t2))
  }

  /** The cell `p` belongs to ship number `v` (1-based), hit or not. */
  predicate OnShip(cells: Cells, p: Coord, v: int)
  {
    InGrid(cells, p) && (At(cells, p) == v || At(cells, p) == -v)
  }

  /** The grid encodes the fleet: 0 is ocean, +k an intact cell of ship k, -k a hit one.
      Every value names a ship; ship k has `life` intact cells and `size` cells in all,
      and those are exactly its footprint. */
  predicate Encoded(cells: Cells, fleet: seq<ShipView>)
  {
    ValuesInRange(cells, |fleet|) && CountsMatch(cells, fleet) && FootprintsMarked(cells, fleet)
  }

  /** Every value is ocean or names one of the `n` ships, intact or hit. */
  predicate ValuesInRange(cells: Cells, n: int)
  {
    forall a, b :: 0 <= a < |cells| && 0 <= b < |cells[a]| ==> -n <= cells[a][b] <= n
  }

  /** Ship k has `life` intact cells and `size` cells in all. */
  predicate CountsMatch(cells: Cells, fleet: seq<ShipView>)
  {
    forall k :: 0 <= k < |fleet| ==>
      Count(cells, k + 1) == fleet[k].life && Count(cells, k + 1) + Count(cells, -(k + 1)) == fleet[k].size
  }

  /** Every cell of ship k's footprint carries its number. */
  predicate FootprintsMarked(cells: Cells, fleet: seq<ShipView>)
  {
    forall k, t :: 0 <= k < |fleet| && 0 <= t < fleet[k].size ==>
      OnShip(cells, Offset(fleet[k].head, fleet[k].orient, t), k + 1)
  }

  /** The sum of the ships' health. */
  function TotalLife(fleet: seq<ShipView>): int
  {
    if fleet == [] then 0 else TotalLife(fleet[..|fleet| - 1]) + fleet[|fleet| - 1].life
  }

  /** How many ships still have health left. */
  function AfloatCount(fleet: seq<ShipView>): nat
  {
    if fleet == [] then 0 else AfloatCount(fleet[..|fleet| - 1]) + Indicator(fleet[|fleet| - 1].life > 0)
  }

  /** The health of the ships that still have some. */
  function AfloatLife(fleet: seq<ShipView>): int
  {
    if fleet == [] then 0
    else AfloatLife(fleet[..|fleet| - 1]) + (if fleet[|fleet| - 1].life > 0 then fleet[|fleet| - 1].life else 0)
  }

  /** The reply to a torpedo at `c`. */
  function ShotOutcome(cells: Cells, c: Coord): (r: TorpedoResult)
    ensures r == InvalidCoordinates <==> !InGrid(cells, c)
    ensures r == Hit <==> InGrid(cells, c) && At(cells, c) > 0
  {
    if !InGrid(cells, c) then InvalidCoordinates
    else if At(cells, c) > 0 then Hit
    else Miss
  }

  /** The grid after a torpedo at `c`: an intact ship cell changes sign, nothing else changes. */
  function Fire(cells: Cells, c: Coord): Cells
  {
    if ShotOutcome(cells, c) == Hit then Set(cells, c, -At(cells, c)) else cells
  }

  /** The fleet after a torpedo at `c`: the ship whose intact cell was hit loses one point. */
  function FireFleet(cells: Cells, fleet: seq<ShipView>, c: Coord): seq<ShipView>
    requires Encoded(cells, fleet)
  {
    if ShotOutcome(cells, c) == Hit then
      var k := At(cells, c) - 1;
      fleet[k := fleet[k].(life := fleet[k].life - 1)]
    else fleet
  }

  /** A torpedo keeps the grid/fleet encoding. */
  lemma FirePreservesEncoding(cells: Cells, fleet: seq<ShipView>, c: Coord)
    requires Encoded(cells, fleet)
    ensures Encoded(Fire(cells, c), FireFleet(cells, fleet, c))
  {
    if ShotOutcome(cells, c) == Hit {
      FireKeepsRange(cells, fleet, c);
      FireKeepsCounts(cells, fleet, c);
      FireKeepsFootprints(cells, fleet, c);
    }
  }

  lemma FireKeepsRange(cells: Cells, fleet: seq<ShipView>, c: Coord)
    requires Encoded(cells, fleet) && ShotOutcome(cells, c) == Hit
    ensures ValuesInRange(Fire(cells, c), |fleet|)
  {
    var r := Fire(cells, c);
    forall a, b | 0 <= a < |r| && 0 <= b < |r[a]|
      ensures -|fleet| <= r[a][b] <= |fleet|
    {
      assert r[a][b] == if Coord(a, b) == c then -cells[a][b] else cells[a][b];
    }
  }

  lemma FireKeepsCounts(cells: Cells, fleet: seq<ShipView>, c: Coord)
    requires Encoded(cells, fleet) && ShotOutcome(cells, c) == Hit
    ensures CountsMatch(Fire(cells, c), FireFleet(cells, fleet, c))
  {
    var v := At(cells, c);
    var f := FireFleet(cells, fleet, c);
    forall k | 0 <= k < |f|
      ensures Count(Fire(cells, c), k + 1) == f[k].life
      ensures Count(Fire(cells, c), k + 1) + Count(Fire(cells, c), -(k + 1)) == f[k].size
    {
      CountSet(cells, c, -v, k + 1);
      CountSet(cells, c, -v, -(k + 1));
    }
  }

  lemma FireKeepsFootprints(cells: Cells, fleet: seq<ShipView>, c: Coord)
    requires Encoded(cells, fleet) && ShotOutcome(cells, c) == Hit
    ensures FootprintsMarked(Fire(cells, c), FireFleet(cells, fleet, c))
  {
    var f := FireFleet(cells, fleet, c);
    forall k, t | 0 <= k < |f| && 0 <= t < f[k].size
      ensures OnShip(Fire(cells, c), Offset(f[k].head, f[k].orient, t), k + 1)
    {
      assert OnShip(cells, Offset(fleet[k].head, fleet[k].orient, t), k + 1);
    }
  }

  /** Only a hit on an intact cell touches the grid or the fleet; anything else leaves both as they were. */
  lemma MissChangesNothing(cells: Cells, fleet: seq<ShipView>, c: Coord)
    requires Encoded(cells, fleet)
    requires ShotOutcome(cells, c) != Hit
    ensures Fire(cells, c) == cells && FireFleet(cells, fleet, c) == fleet
  {
  }

  /** Firing twice at one cell is the same as firing once: the second shot is a miss. */
  lemma RepeatedShotIsMiss(cells: Cells, fleet: seq<ShipView>, c: Coord)
    requires Encoded(cells, fleet)
    ensures ShotOutcome(Fire(cells, c), c) != Hit
    ensures Fire(Fire(cells, c), c) == Fire(cells, c)
    ensures Encoded(Fire(cells, c), FireFleet(cells, fleet, c)) &&
            FireFleet(Fire(cells, c), FireFleet(cells, fleet, c), c) == FireFleet(cells, fleet, c)
  {
    FirePreservesEncoding(cells, fleet, c);
  }

  lemma {:induction false} TotalLifeUpdate(fleet: seq<ShipView>, k: int, life: int)
    requires 0 <= k < |fleet|
    ensures TotalLife(fleet[k := fleet[k].(life := life)]) == TotalLife(fleet) - fleet[k].life + life
  {
    var n := |fleet|;
    var f := fleet[k := fleet[k].(life := life)];
    if k == n - 1 {
      assert f[..n - 1] == fleet[..n - 1];
    } else {
      assert f[..n - 1] == fleet[..n - 1][k := fleet[k].(life := life)];
      TotalLifeUpdate(fleet[..n - 1], k, life);
    }
  }

  /** Each hit takes exactly one point off the fleet's total health; a miss takes none. */
  lemma FireTotalLife(cells: Cells, fleet: seq<ShipView>, c: Coord)
    requires Encoded(cells, fleet)
    ensures TotalLife(FireFleet(cells, fleet, c)) == TotalLife(fleet) - Indicator(ShotOutcome(cells, c) == Hit)
  {
    if ShotOutcome(cells, c) == Hit {
      var k := At(cells, c) - 1;
      TotalLifeUpdate(fleet, k, fleet[k].life - 1);
    }
  }

  /** With no negative health, the total is zero exactly when every ship is sunk. */
  lemma {:induction false} AllSunkIff(fleet: seq<ShipView>)
    requires forall k :: 0 <= k < |fleet| ==> fleet[k].life >= 0
    ensures TotalLife(fleet) >= 0
    ensures TotalLife(fleet) == 0 <==> forall k :: 0 <= k < |fleet| ==> fleet[k].life == 0
  {
    if fleet != [] {
      AllSunkIff(fleet[..|fleet| - 1]);
    }
  }

  /** The fleet's total health is zero exactly when no intact ship cell is left on the grid. */
  lemma GameOverIffNoLiveCell(cells: Cells, fleet: seq<ShipView>)
    requires Encoded(cells, fleet)
    ensures TotalLife(fleet) >= 0
    ensures TotalLife(fleet) == 0 <==>
            forall a, b :: 0 <= a < |cells| && 0 <= b < |cells[a]| ==> cells[a][b] <= 0
  {
    AllSunkIff(fleet);
    forall k | 0 <= k < |fleet| {
      CountPresent(cells, k + 1);
    }
    if TotalLife(fleet) == 0 {
      forall v | 1 <= v <= |fleet|
        ensures Count(cells, v) == 0
      {
        assert fleet[v - 1].life == 0;
      }
      forall a, b | 0 <= a < |cells| && 0 <= b < |cells[a]|
        ensures cells[a][b] <= 0
      {
        CountPresent(cells, cells[a][b]);
      }
    }
  }

  /** Health never goes below zero while the encoding holds. */
  lemma LivesNonNegative(cells: Cells, fleet: seq<ShipView>)
    requires Encoded(cells, fleet)
    ensures forall k :: 0 <= k < |fleet| ==> 0 <= fleet[k].life <= fleet[k].size
  {
  }

  /** No cell belongs to two ships. */
  lemma FootprintsDisjoint(cells: Cells, fleet: seq<ShipView>, k1: int, k2: int, t1: int, t2: int)
    requires Encoded(cells, fleet)
    requires 0 <= k1 < |fleet| && 0 <= k2 < |fleet| && k1 != k2
    requires 0 <= t1 < fleet[k1].size && 0 <= t2 < fleet[k2].size
    ensures Offset(fleet[k1].head, fleet[k1].orient, t1) != Offset(fleet[k2].head, fleet[k2].orient, t2)
  {
    assert OnShip(cells, Offset(fleet[k1].head, fleet[k1].orient, t1), k1 + 1);
    assert OnShip(cells, Offset(fleet[k2].head, fleet[k2].orient, t2), k2 + 1);
  }

  /** Adding a ship that fits, under the next index, keeps the encoding. */
  lemma PlacePreservesEncoding(cells: Cells, fleet: seq<ShipView>, s: ShipView)
    requires Encoded(cells, fleet)
    requires Fits(cells, s)
    ensures Encoded(Paint(cells, Footprint(s.head, s.orient, s.size), |fleet| + 1), fleet + [s])
  {
    PlaceKeepsRange(cells, fleet, s);
    PlaceKeepsCounts(cells, fleet, s);
    PlaceKeepsFootprints(cells, fleet, s);
  }

  lemma PlaceKeepsRange(cells: Cells, fleet: seq<ShipView>, s: ShipView)
    requires Encoded(cells, fleet) && Fits(cells, s)
    ensures ValuesInRange(Paint(cells, Footprint(s.head, s.orient, s.size), |fleet| + 1), |fleet| + 1)
  {
    var r := Paint(cells, Footprint(s.head, s.orient, s.size), |fleet| + 1);
    forall a, b | 0 <= a < |r| && 0 <= b < |r[a]|
      ensures -(|fleet| + 1) <= r[a][b] <= |fleet| + 1
    {
      assert -|fleet| <= cells[a][b] <= |fleet|;
    }
  }

  /** A ship that fits covers `size` distinct ocean cells. */
  lemma FootprintOnOcean(cells: Cells, s: ShipView)
    requires Fits(cells, s)
    ensures var fp := Footprint(s.head, s.orient, s.size);
            && |fp| == s.size
            && (forall t :: 0 <= t < |fp| ==> InGrid(cells, fp[t]) && At(cells, fp[t]) == 0)
            && (forall a, b :: 0 <= a < b < |fp| ==> fp[a] != fp[b])
  {
    var fp := Footprint(s.head, s.orient, s.size);
    forall t | 0 <= t < |fp|
      ensures InGrid(cells, fp[t]) && At(cells, fp[t]) == 0
    {
      assert OceanAt(cells, Offset(s.head, s.orient, t));
    }
  }

  lemma PlaceKeepsCounts(cells: Cells, fleet: seq<ShipView>, s: ShipView)
    requires Encoded(cells, fleet) && Fits(cells, s)
    ensures CountsMatch(Paint(cells, Footprint(s.head, s.orient, s.size), |fleet| + 1), fleet + [s])
  {
    var fp := Footprint(s.head, s.orient, s.size);
    var v := |fleet| + 1;
    var r := Paint(cells, fp, v);
    var f := fleet + [s];
    FootprintOnOcean(cells, s);
    assert |fp| == s.size;
    forall k | 0 <= k < |f|
      ensures Count(r, k + 1) == f[k].life && Count(r, k + 1) + Count(r, -(k + 1)) == f[k].size
    {
      PaintCount(cells, fp, v, k + 1);
      PaintCount(cells, fp, v, -(k + 1));
      if k == |fleet| {
        CountPresent(cells, v);
        CountPresent(cells, -v);
        assert Count(cells, v) == 0 && Count(cells, -v) == 0;
      } else {
        assert f[k] == fleet[k];
      }
    }
  }

  lemma PlaceKeepsFootprints(cells: Cells, fleet: seq<ShipView>, s: ShipView)
    requires Encoded(cells, fleet) && Fits(cells, s)
    ensures FootprintsMarked(Paint(cells, Footprint(s.head, s.orient, s.size), |fleet| + 1), fleet + [s])
  {
    var fp := Footprint(s.head, s.orient, s.size);
    var r := Paint(cells, fp, |fleet| + 1);
    var f := fleet + [s];
    forall k, t | 0 <= k < |f| && 0 <= t < f[k].size
      ensures OnShip(r, Offset(f[k].head, f[k].orient, t), k + 1)
    {
      var p := Offset(f[k].head, f[k].orient, t);
      if k < |fleet| {
        assert OnShip(cells, p, k + 1);
        assert p !in fp;
      } else {
        assert fp[t] == p;
      }
    }
  }

  /** After painting ship `k` of a layout whose ships from `k` on fit, the ships after it still fit. */
  lemma PaintKeepsLayout(cells: Cells, views: seq<ShipView>, k: nat, v: int)
    requires k < |views| && LayoutFits(cells, views[k..])
    ensures LayoutFits(Paint(cells, Footprint(views[k].head, views[k].orient, views[k].size), v), views[k + 1..])
  {
    var fp := Footprint(views[k].head, views[k].orient, views[k].size);
    var r := Paint(cells, fp, v);
    var rest := views[k + 1..];
    forall m, t | 0 <= m < |rest| && 0 <= t < rest[m].size
      ensures OceanAt(r, Offset(rest[m].head, rest[m].orient, t))
    {
      var p := Offset(rest[m].head, rest[m].orient, t);
      assert rest[m] == views[k..][m + 1];
      assert Fits(cells, views[k..][m + 1]);
      assert OceanAt(cells, p);
    }
    forall k1, k2, t1, t2 |
        0 <= k1 < k2 < |rest| && 0 <= t1 < rest[k1].size && 0 <= t2 < rest[k2].size
      ensures Offset(rest[k1].head, rest[k1].orient, t1) != Offset(rest[k2].head, rest[k2].orient, t2)
    {
      assert rest[k1] == views[k..][k1 + 1] && rest[k2] == views[k..][k2 + 1];
    }
  }

  /** AfloatCount and AfloatLife report the live ships and the total health. */
  lemma {:induction false} AfloatMatchesTotal(fleet: seq<ShipView>)
    requires forall k :: 0 <= k < |fleet| ==> fleet[k].life >= 0
    ensures AfloatLife(fleet) == TotalLife(fleet)
    ensures AfloatCount(fleet) == 0 <==> TotalLife(fleet) == 0
    ensures AfloatCount(fleet) <= |fleet|
  {
    if fleet != [] {
      AfloatMatchesTotal(fleet[..|fleet| - 1]);
      AllSunkIff(fleet[..|fleet| - 1]);
    }
  }

  /** Searches `order` for the first heading whose placement is ocean, as the shuffled loop does. */
  function FirstFit(cells: Cells, head: Coord, order: seq<Direction>, size: int): Option<Direction>
  {
    if order == [] then None
    else if PlacementOk(cells, head, order[0], size) then Some(order[0])
    else FirstFit(cells, head, order[1..], size)
  }

  /** FirstFit returns the earliest heading that works, and None exactly when none does. */
  lemma {:induction false} FirstFitSpec(cells: Cells, head: Coord, order: seq<Direction>, size: int)
    ensures FirstFit(cells, head, order, size).None? <==>
            forall k :: 0 <= k < |order| ==> !PlacementOk(cells, head, order[k], size)
    ensures FirstFit(cells, head, order, size).Some? ==>
            exists k :: 0 <= k < |order| && order[k] == FirstFit(cells, head, order, size).value &&
                        PlacementOk(cells, head, order[k], size) &&
                        forall m :: 0 <= m < k ==> !PlacementOk(cells, head, order[m], size)
  {
    if order != [] && !PlacementOk(cells, head, order[0], size) {
      FirstFitSpec(cells, head, order[1..], size);
      if FirstFit(cells, head, order, size).Some? {
        var k :| 0 <= k < |order| - 1 && order[1..][k] == FirstFit(cells, head, order, size).value &&
                 PlacementOk(cells, head, order[1..][k], size) &&
                 forall m :: 0 <= m < k ==> !PlacementOk(cells, head, order[1..][m], size);
        assert order[k + 1] == order[1..][k];
        forall m | 0 <= m < k + 1
          ensures !PlacementOk(cells, head, order[m], size)
        {
          if m > 0 {
            assert order[m] == order[1..][m - 1];
          }
        }
      }
      if forall k :: 0 <= k < |order| - 1 ==> !PlacementOk(cells, head, order[1..][k], size) {
        forall k | 0 <= k < |order|
          ensures !PlacementOk(cells, head, order[k], size)
        {
          if k > 0 {
            assert order[k] == order[1..][k - 1];
          }
        }
      }
    } else if order != [] {
      assert order[0] == FirstFit(cells, head, order, size).value;
    }
  }

  /** One round of random placement succeeds: the head is ocean and some heading fits. */
  predicate DrawFits(cells: Cells, head: Coord, order: seq<Direction>, size: int)
  {
    OceanAt(cells, head) && FirstFit(cells, head, order, size).Some?
  }

  /** The headings in the order `random.shuffle` left them: a permutation of the four. */
  type Shuffle = order: seq<Direction> | multiset(order) == multiset{North, South, East, West}
    witness [North, South, East, West]

  /** Since a round tries all four headings, it fails exactly when its head is not ocean or
      no heading at all fits there. */
  lemma ShuffledRoundFits(cells: Cells, head: Coord, order: Shuffle, size: int)
    ensures DrawFits(cells, head, order, size) <==>
            OceanAt(cells, head) && exists d: Direction :: PlacementOk(cells, head, d, size)
  {
    FirstFitSpec(cells, head, order, size);
    if exists d: Direction :: PlacementOk(cells, head, d, size) {
      var d: Direction :| PlacementOk(cells, head, d, size);
      assert d in multiset(order) by {
        match d
        case North =>
        case South =>
        case East =>
        case West =>
      }
      var k :| 0 <= k < |order| && order[k] == d;
    }
  }

  /** A successful round gives a ship that fits. */
  lemma DrawFitsGivesFit(cells: Cells, head: Coord, order: seq<Direction>, size: int)
    requires 1 <= size
    requires DrawFits(cells, head, order, size)
    ensures Fits(cells, ShipView(size, head, FirstFit(cells, head, order, size).value, size))
  {
    FirstFitSpec(cells, head, order, size);
  }
}
