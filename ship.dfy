/** A ship: its name, length, heading, head cell and remaining health. */
module Ships {
  import opened Grid

  /** The four headings a ship's body can extend in from its head. */
  datatype Direction = North | South | East | West
  {
    /** The unit step of the heading on the (row, column) grid. */
    function Delta(): (d: Coord)
      ensures d.i * d.i + d.j * d.j == 1
    {
      match this
      case North => Coord(-1, 0)
      case South => Coord(1, 0)
      case East => Coord(0, 1)
      case West => Coord(0, -1)
    }
  }

  /** Every heading is one of the four, and no two share a step. */
  lemma DirectionsDistinct(d: Direction, e: Direction)
    ensures d in {North, South, East, West}
    ensures d.Delta() == e.Delta() <==> d == e
  {
  }

  class Ship {
    var name: string
    var size: int
    var orient: Direction
    var headLoc: Coord
    var lifePoints: int

    /** Records the ship as given, with no check against any board; health starts at `size`. */
    constructor (name: string := "destroyer", size: int := 2, headLoc: Coord := Coord(0, 0),
                 orient: Direction := North)
      ensures this.name == name && this.size == size && this.headLoc == headLoc && this.orient == orient
      ensures lifePoints == size
    {
      this.name := name;
      this.size := size;
      this.orient := orient;
      this.headLoc := headLoc;
      lifePoints := size;
    }

    /** The ship was hit: one point less health, with no floor. Nothing else changes. */
    method Ouch()
      modifies this
      ensures lifePoints == old(lifePoints) - 1
      ensures name == old(name) && size == old(size) && orient == old(orient) && headLoc == old(headLoc)
    {
      lifePoints := lifePoints - 1;
    }
  }

  /** Constructing with no arguments gives a two-cell destroyer at (0, 0) heading north. */
  method DefaultShip() returns (s: Ship)
    ensures fresh(s)
    ensures s.name == "destroyer" && s.size == 2 && s.headLoc == Coord(0, 0) && s.orient == North
    ensures s.lifePoints == 2
  {
    s := new Ship();
  }
}
