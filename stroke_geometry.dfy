/**
 * A single normalised kanji stroke and its coarse classifications:
 * the 3x3 grid Location of an end point and the 9-way compass Direction
 * of a movement.
 */
module StrokeGeometry {
  import opened Wrappers

  /** A normalised coordinate. */
  type Coord = v: int | 0 <= v <= 255

  predicate InRange(v: int) { 0 <= v <= 255 }

  function Abs(v: int): nat { if v < 0 then -v else v }

  function Sign(v: int): int { if v > 0 then 1 else if v < 0 then -1 else 0 }

  /** The band of a coordinate when 0..255 is cut into `ranges` bands: (v × ranges) >> 8. */
  function Band(v: Coord, ranges: nat): (b: nat)
    ensures ranges > 0 ==> b < ranges
  {
    BandBelow(v, ranges);
    (v * ranges) / 256
  }

  lemma BandBelow(v: Coord, ranges: nat)
    ensures 0 <= (v * ranges) / 256
    ensures ranges > 0 ==> (v * ranges) / 256 < ranges
  {
    var q := (v * ranges) / 256;
    assert 0 <= v * ranges <= 255 * ranges;
    assert q * 256 <= v * ranges;
    assert ranges > 0 ==> v * ranges < 256 * ranges;
  }

  // ---------------------------------------------------------------------------
  // Location

  /** Approximate location of a point on a 3x3 grid; cell coordinates are X() and Y(). */
  datatype Location = N | NE | E | SE | S | SW | W | NW | MID {

    function X(): int {
      match this
      case N => 1 case NE => 2 case E => 2 case SE => 2 case S => 1
      case SW => 0 case W => 0 case NW => 0 case MID => 1
    }

    function Y(): int {
      match this
      case N => 0 case NE => 0 case E => 1 case SE => 2 case S => 2
      case SW => 2 case W => 1 case NW => 0 case MID => 1
    }

    /** Position in declaration order. */
    function Ordinal(): nat {
      match this
      case N => 0 case NE => 1 case E => 2 case SE => 3 case S => 4
      case SW => 5 case W => 6 case NW => 7 case MID => 8
    }

    /** The one-glyph display form (block elements). */
    function ToString(): string {
      match this
      case N => "\U{2580}" case NE => "\U{259c}" case E => "\U{2590}"
      case SE => "\U{259f}" case S => "\U{2584}" case SW => "\U{2599}"
      case W => "\U{258c}" case NW => "\U{259b}" case MID => "\U{2588}"
    }

    /** True if the two cells are within one step of each other on both axes. */
    predicate IsClose(other: Location) {
      Abs(X() - other.X()) <= 1 && Abs(Y() - other.Y()) <= 1
    }
  }

  /** Location.values() in declaration order. */
  const AllLocations: seq<Location> := [Location.N, Location.NE, Location.E, Location.SE,
    Location.S, Location.SW, Location.W, Location.NW, Location.MID]

  /** The grid cell (0, 1 or 2) of one normalised axis value. */
  function Cell(v: int): int { if v < 85 then 0 else if v < 170 then 1 else 2 }

  /** Location.get: the cell of a normalised point. */
  function LocationOf(x: int, y: int): (l: Location)
    ensures l.X() == Cell(x) && l.Y() == Cell(y)
  {
    if x < 85 then
      if y < 85 then Location.NW else if y < 170 then Location.W else Location.SW
    else if x < 170 then
      if y < 85 then Location.N else if y < 170 then Location.MID else Location.S
    else
      if y < 85 then Location.NE else if y < 170 then Location.E else Location.SE
  }

  /** A location is determined by its cell coordinates. */
  lemma LocationCellsDetermine(a: Location, b: Location)
    requires a.X() == b.X() && a.Y() == b.Y()
    ensures a == b
  {
  }

  /** isClose is Chebyshev distance at most one, so it is reflexive ... */
  lemma LocationIsCloseReflexive(a: Location)
    ensures a.IsClose(a)
  {
  }

  /** ... and symmetric ... */
  lemma LocationIsCloseSymmetric(a: Location, b: Location)
    ensures a.IsClose(b) <==> b.IsClose(a)
  {
    assert Abs(a.X() - b.X()) == Abs(b.X() - a.X()) && Abs(a.Y() - b.Y()) == Abs(b.Y() - a.Y());
  }

  /** ... and the centre cell is close to every location. */
  lemma MidIsCloseToAll(a: Location)
    ensures Location.MID.IsClose(a)
  {
    assert 0 <= a.X() <= 2 && 0 <= a.Y() <= 2;
  }

  /** Linear search of candidates for the one whose glyph is s. */
  function FindLocation(s: string, candidates: seq<Location>): (r: Result<Location>)
    ensures r.Success? ==> r.value in candidates && r.value.ToString() == s
    ensures r.Failure? ==> r.error == IllegalArgument
                           && forall c :: c in candidates ==> c.ToString() != s
  {
    if candidates == [] then Failure(IllegalArgument)
    else if candidates[0].ToString() == s then Success(candidates[0])
    else FindLocation(s, candidates[1..])
  }

  /** Location.fromString: the location whose glyph is s, or IllegalArgument. */
  function LocationFromString(s: string): (r: Result<Location>)
    ensures r.Success? ==> r.value.ToString() == s
    ensures r.Failure? ==> r.error == IllegalArgument && forall l: Location :: l.ToString() != s
  {
    var r := FindLocation(s, AllLocations);
    forall l: Location ensures l in AllLocations {
      assert AllLocations[l.Ordinal()] == l;
    }
    r
  }

  /** fromString inverts toString. */
  lemma LocationRoundTrip(l: Location)
    ensures LocationFromString(l.ToString()) == Success(l)
  {
  }

  // ---------------------------------------------------------------------------
  // Direction

  /** Compass direction of a movement; X means no clear movement. */
  datatype Direction = N | NE | E | SE | S | SW | W | NW | X {

    /** Compass index 0..7 clockwise from N, -1 for X. */
    function Index(): int {
      match this
      case N => 0 case NE => 1 case E => 2 case SE => 3 case S => 4
      case SW => 5 case W => 6 case NW => 7 case X => -1
    }

    /** The one-glyph display form (arrows, and a circle for X). */
    function ToString(): string {
      match this
      case N => "\U{2191}" case NE => "\U{2197}" case E => "\U{2192}"
      case SE => "\U{2198}" case S => "\U{2193}" case SW => "\U{2199}"
      case W => "\U{2190}" case NW => "\U{2196}" case X => "\U{26aa}"
    }

    /** Horizontal component: +1 east, -1 west, 0 otherwise. */
    function ColumnStep(): int {
      match this
      case NE => 1 case E => 1 case SE => 1
      case SW => -1 case W => -1 case NW => -1
      case _ => 0
    }

    /** Vertical component (y grows downwards): +1 south, -1 north, 0 otherwise. */
    function RowStep(): int {
      match this
      case SE => 1 case S => 1 case SW => 1
      case NE => -1 case N => -1 case NW => -1
      case _ => 0
    }

    predicate IsDiagonal() { NE? || SE? || SW? || NW? }

    /** True if either is X, they are equal, or they are neighbours on the compass. */
    predicate IsClose(other: Direction) {
      if this == X || other == X || this == other then true
      else Index() == (other.Index() + 1) % 8 || (Index() + 1) % 8 == other.Index()
    }
  }

  /** Direction.values() in declaration order. */
  const AllDirections: seq<Direction> := [Direction.N, Direction.NE, Direction.E,
    Direction.SE, Direction.S, Direction.SW, Direction.W, Direction.NW, Direction.X]

  /** Minimum absolute delta on some axis for a movement to have a direction. */
  const DirectionThreshold: int := 51

  /** Proportion (out of 256) of the major delta the minor delta must exceed for a diagonal. */
  const DiagonalThreshold: int := 77

  /** Cyclic distance between two compass indices 0..7. */
  function CompassDistance(i: int, j: int): int
  {
    var d := Abs(i - j);
    if d <= 4 then d else 8 - d
  }

  /** Direction.isClose is: either is X, or compass distance at most one ... */
  lemma DirectionIsCloseCompass(a: Direction, b: Direction)
    ensures a.IsClose(b) <==> (a == Direction.X || b == Direction.X
                               || CompassDistance(a.Index(), b.Index()) <= 1)
  {
  }

  /** ... so it is symmetric ... */
  lemma DirectionIsCloseSymmetric(a: Direction, b: Direction)
    ensures a.IsClose(b) <==> b.IsClose(a)
  {
    DirectionIsCloseCompass(a, b);
    DirectionIsCloseCompass(b, a);
    assert CompassDistance(a.Index(), b.Index()) == CompassDistance(b.Index(), a.Index());
  }

  /** ... reflexive, and X is close to everything. */
  lemma DirectionIsCloseReflexive(a: Direction)
    ensures a.IsClose(a) && a.IsClose(Direction.X)
  {
  }

  /** A non-X direction is determined by its two compass components. */
  lemma DirectionStepsDetermine(a: Direction, b: Direction)
    requires a != Direction.X && b != Direction.X
    requires a.ColumnStep() == b.ColumnStep() && a.RowStep() == b.RowStep()
    ensures a == b
  {
  }

  /**
   * Direction.get: the direction of the movement from (startX, startY) to (endX, endY).
   * Ties between the axes go to the vertical branch.
   */
  function DirectionOf(startX: int, startY: int, endX: int, endY: int): (d: Direction)
    ensures var dx, dy := endX - startX, endY - startY;
      && (d == Direction.X <==> Abs(dx) < DirectionThreshold && Abs(dy) < DirectionThreshold)
      && (d != Direction.X ==>
            var major := if Abs(dx) > Abs(dy) then Abs(dx) else Abs(dy);
            var minor := if Abs(dx) > Abs(dy) then Abs(dy) else Abs(dx);
            && (d.IsDiagonal() <==> minor > (DiagonalThreshold * major) / 256)
            && (d.IsDiagonal() ==> d.ColumnStep() == Sign(dx) && d.RowStep() == Sign(dy))
            && (!d.IsDiagonal() && Abs(dx) > Abs(dy) ==>
                  d.ColumnStep() == Sign(dx) && d.RowStep() == 0)
            && (!d.IsDiagonal() && Abs(dx) <= Abs(dy) ==>
                  d.ColumnStep() == 0 && d.RowStep() == Sign(dy)))
  {
    var deltaX, deltaY := endX - startX, endY - startY;
    var absDeltaX, absDeltaY := Abs(deltaX), Abs(deltaY);
    if absDeltaX < DirectionThreshold && absDeltaY < DirectionThreshold then
      Direction.X
    else if absDeltaX > absDeltaY then
      var diagonal := absDeltaY > (DiagonalThreshold * absDeltaX) / 256;
      if deltaX > 0 then
        if diagonal then (if deltaY < 0 then Direction.NE else Direction.SE) else Direction.E
      else
        if diagonal then (if deltaY < 0 then Direction.NW else Direction.SW) else Direction.W
    else
      var diagonal := absDeltaX > (DiagonalThreshold * absDeltaY) / 256;
      if deltaY > 0 then
        if diagonal then (if deltaX < 0 then Direction.SW else Direction.SE) else Direction.S
      else
        if diagonal then (if deltaX < 0 then Direction.NW else Direction.NE) else Direction.N
  }

  /** A movement with equal, non-negligible deltas on both axes is always diagonal. */
  lemma EqualDeltasAreDiagonal(startX: int, startY: int, endX: int, endY: int)
    requires Abs(endX - startX) == Abs(endY - startY) >= DirectionThreshold
    ensures DirectionOf(startX, startY, endX, endY).IsDiagonal()
  {
  }

  /** Linear search of candidates for the one whose glyph is s. */
  function FindDirection(s: string, candidates: seq<Direction>): (r: Result<Direction>)
    ensures r.Success? ==> r.value in candidates && r.value.ToString() == s
    ensures r.Failure? ==> r.error == IllegalArgument
                           && forall c :: c in candidates ==> c.ToString() != s
  {
    if candidates == [] then Failure(IllegalArgument)
    else if candidates[0].ToString() == s then Success(candidates[0])
    else FindDirection(s, candidates[1..])
  }

  /** Direction.fromString: the direction whose glyph is s, or IllegalArgument. */
  function DirectionFromString(s: string): (r: Result<Direction>)
    ensures r.Success? ==> r.value.ToString() == s
    ensures r.Failure? ==> r.error == IllegalArgument && forall d: Direction :: d.ToString() != s
  {
    var r := FindDirection(s, AllDirections);
    forall d: Direction ensures d in AllDirections {
      assert AllDirections[if d.X? then 8 else d.Index()] == d;
    }
    r
  }

  /** fromString inverts toString. */
  lemma DirectionRoundTrip(d: Direction)
    ensures DirectionFromString(d.ToString()) == Success(d)
  {
  }

  // ---------------------------------------------------------------------------
  // Stroke

  /** A stroke from a start point to an end point, every coordinate 0..255. */
  datatype Stroke = Stroke(startX: Coord, startY: Coord, endX: Coord, endY: Coord) {

    function GetDirection(): Direction {
      DirectionOf(startX, startY, endX, endY)
    }

    /** Direction the pen moved from the end of the previous stroke to the start of this one. */
    function GetMoveDirection(previous: Stroke): Direction {
      DirectionOf(previous.endX, previous.endY, startX, startY)
    }

    function GetStartLocation(): Location { LocationOf(startX, startY) }

    function GetEndLocation(): Location { LocationOf(endX, endY) }
  }

  /** Stroke(int, int, int, int): IllegalArgument unless every value is in 0..255. */
  function NewStroke(startX: int, startY: int, endX: int, endY: int): (r: Result<Stroke>)
    ensures r.Failure? <==> !(InRange(startX) && InRange(startY) && InRange(endX) && InRange(endY))
    ensures r.Failure? ==> r.error == IllegalArgument
    ensures r.Success? ==> r.value.startX == startX && r.value.startY == startY
                           && r.value.endX == endX && r.value.endY == endY
  {
    if startX < 0 || startX > 255 || startY < 0 || startY > 255
       || endX < 0 || endX > 255 || endY < 0 || endY > 255
    then Failure(IllegalArgument)
    else Success(Stroke(startX, startY, endX, endY))
  }

  // ---------------------------------------------------------------------------
  // Per-stroke features of a character record

  /**
   * The four arrays a finished record derives from its strokes: each
   * stroke's direction, start and end location, and the direction of each
   * move between consecutive strokes.
   */
  datatype Features = Features(directions: seq<Direction>, moves: seq<Direction>,
                               starts: seq<Location>, ends: seq<Location>)
  {
    function Count(): nat { |starts| }

    /** One entry per stroke, and one move between each two consecutive strokes. */
    predicate WellFormed() {
      |directions| == |starts| && |ends| == |starts|
      && |moves| == (if |starts| == 0 then 0 else |starts| - 1)
    }
  }
}
