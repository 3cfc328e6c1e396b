/** The world of the treasure hunt: geometry, orientations and their unit
    displacements, the immutable mountains and treasures, the mutable
    adventurers, and the map that owns them all.

    Two views are given of the mutable entities. `Adventurer` and `Map` are
    classes whose fields the engine updates in place, as the C# records
    are; `AdventurerState` and `World` are their values at one instant, on which
    the specification functions of the parser and the engine are written. */
module Models {

  datatype Position = Position(x: int, y: int)

  /** Grid extent: `width` columns and `height` rows. */
  datatype Dimension = Dimension(width: int, height: int)

  /** The four headings, in clockwise order. */
  datatype Orientation = North | East | South | West

  /** The enum's underlying value: the heading in degrees, clockwise from North.
      The engine's turns are arithmetic on this value. */
  function Degrees(o: Orientation): (d: int)
    ensures IsHeadingDegrees(d)
  {
    match o
    case North => 0
    case East => 90
    case South => 180
    case West => 270
  }

  /** The values the enum defines: the multiples of 90 in [0, 360). */
  predicate IsHeadingDegrees(d: int) {
    d == 0 || d == 90 || d == 180 || d == 270
  }

  /** The cast from `int` back to the enum, on the values it defines. */
  function FromDegrees(d: int): (o: Orientation)
    requires IsHeadingDegrees(d)
    ensures Degrees(o) == d
  {
    if d == 0 then North else if d == 90 then East else if d == 180 then South else West
  }

  /** Distinct headings have distinct degree values. */
  lemma DegreesRoundTrip(o: Orientation)
    ensures FromDegrees(Degrees(o)) == o
  {
  }

  /** The next heading clockwise: North, East, South, West, North. */
  function Clockwise(o: Orientation): Orientation {
    match o
    case North => East
    case East => South
    case South => West
    case West => North
  }

  /** The next heading counter-clockwise. */
  function CounterClockwise(o: Orientation): Orientation {
    match o
    case North => West
    case West => South
    case South => East
    case East => North
  }

  /** `Orientation.ToString()`. */
  function OrientationName(o: Orientation): (s: string)
    ensures |s| > 0
  {
    match o
    case North => "North"
    case East => "East"
    case South => "South"
    case West => "West"
  }

  /** The displacement table: one cell per step, y growing southwards. */
  const OrientationToPosition: map<Orientation, Position> :=
    map[North := Position(0, -1), East := Position(1, 0), South := Position(0, 1), West := Position(-1, 0)]

  /** The table has an entry for every orientation, so looking one up never fails. */
  lemma OrientationToPositionIsTotal(o: Orientation)
    ensures o in OrientationToPosition
  {
  }

  /** Every displacement moves exactly one coordinate by exactly one. */
  lemma DisplacementIsUnitStep(o: Orientation)
    ensures var d := OrientationToPosition[o];
      (d.x == 0 && (d.y == 1 || d.y == -1)) || (d.y == 0 && (d.x == 1 || d.x == -1))
  {
  }

  /** An impassable cell. Equality is equality of positions. */
  datatype Mountain = Mountain(position: Position)

  /** The `Mountain(int x, int y)` constructor. */
  function MountainAt(x: int, y: int): (m: Mountain)
    ensures m.position.x == x && m.position.y == y
  {
    Mountain(Position(x, y))
  }

  /** One collectible unit. A stack of n is n equal values in the treasure list. */
  datatype Treasure = Treasure(position: Position)

  /** The `Treasure(int x, int y)` constructor. */
  function TreasureAt(x: int, y: int): (t: Treasure)
    ensures t.position.x == x && t.position.y == y
  {
    Treasure(Position(x, y))
  }

  /** C#'s `uint`. */
  type uint32 = n: nat | n < 0x1_0000_0000

  /** `n += 1` on a `uint` in an unchecked context: wraps to 0 after the maximum. */
  function IncrementUInt(n: uint32): (r: uint32)
    ensures r == (n + 1) % 0x1_0000_0000
  {
    if n == 0xFFFF_FFFF then 0 else n + 1
  }

  /** `Math.Max`. */
  function Max(a: int, b: int): (m: int)
    ensures m >= a && m >= b && (m == a || m == b)
  {
    if a >= b then a else b
  }

  /** An adventurer at one instant. */
  datatype AdventurerState = AdventurerState(
    name: string,
    position: Position,
    orientation: Orientation,
    nbTreasures: uint32,
    instructions: seq<char>)

  /** The C# `Adventurer` record. Its name is fixed at construction;
      position, orientation, treasure count and the pending instruction queue
      (head first) are updated in place. */
  class Adventurer {
    const name: string
    var position: Position
    var orientation: Orientation
    var nbTreasures: uint32
    var instructions: seq<char>

    function State(): AdventurerState
      reads this
    {
      AdventurerState(name, position, orientation, nbTreasures, instructions)
    }

    /** Enqueues the given instructions one by one, keeping their order. */
    constructor (name: string, position: Position, orientation: Orientation,
                 instructions: seq<char>, nbTreasures: uint32 := 0)
      ensures State() == AdventurerState(name, position, orientation, nbTreasures, instructions)
    {
      this.name := name;
      this.position := position;
      this.orientation := orientation;
      this.instructions := [];
      this.nbTreasures := nbTreasures;
      new;
      for i := 0 to |instructions|
        invariant State() == AdventurerState(name, position, orientation, nbTreasures, instructions[..i])
      {
        this.instructions := this.instructions + [instructions[i]];
      }
    }

    /** The `(name, x, y, ...)` constructor: the same state as with `Position(x, y)`. */
    constructor FromCoordinates(name: string, x: int, y: int, orientation: Orientation,
                                instructions: seq<char>, nbTreasures: uint32 := 0)
      ensures State() == AdventurerState(name, Position(x, y), orientation, nbTreasures, instructions)
    {
      this.name := name;
      this.position := Position(x, y);
      this.orientation := orientation;
      this.instructions := [];
      this.nbTreasures := nbTreasures;
      new;
      for i := 0 to |instructions|
        invariant State() == AdventurerState(name, Position(x, y), orientation, nbTreasures, instructions[..i])
      {
        this.instructions := this.instructions + [instructions[i]];
      }
    }

    /** `Instructions.Dequeue()`: removes and returns the head of the queue. */
    method Dequeue() returns (instruction: char)
      requires instructions != []
      modifies this
      ensures instruction == old(instructions)[0]
      ensures State() == old(State()).(instructions := old(instructions)[1..])
    {
      instruction := instructions[0];
      instructions := instructions[1..];
    }
  }

  /** The states of a list of adventurers, in list order. */
  function States(adventurers: seq<Adventurer>): (r: seq<AdventurerState>)
    reads adventurers
    ensures |r| == |adventurers|
    ensures forall i :: 0 <= i < |adventurers| ==> r[i] == adventurers[i].State()
  {
    seq(|adventurers|, i reads adventurers requires 0 <= i < |adventurers| => adventurers[i].State())
  }

  function MountainPositions(mountains: seq<Mountain>): (r: seq<Position>)
    ensures |r| == |mountains| && forall i :: 0 <= i < |r| ==> r[i] == mountains[i].position
  {
    seq(|mountains|, i requires 0 <= i < |mountains| => mountains[i].position)
  }

  function AdventurerPositions(adventurers: seq<AdventurerState>): (r: seq<Position>)
    ensures |r| == |adventurers| && forall i :: 0 <= i < |r| ==> r[i] == adventurers[i].position
  {
    seq(|adventurers|, i requires 0 <= i < |adventurers| => adventurers[i].position)
  }

  /** No element occurs twice. */
  predicate Distinct<T(==)>(s: seq<T>) {
    forall i, j :: 0 <= i < j < |s| ==> s[i] != s[j]
  }

  /** A map at one instant. */
  datatype World = World(
    dimension: Dimension,
    mountains: seq<Mountain>,
    treasures: seq<Treasure>,
    adventurers: seq<AdventurerState>)

  /** The C# `Map` record: its treasure list shrinks in place and its
      adventurers are updated in place; dimension and mountains never change. */
  class Map {
    const dimension: Dimension
    const mountains: seq<Mountain>
    var treasures: seq<Treasure>
    const adventurers: seq<Adventurer>

    /** Each adventurer object appears once in the list. */
    ghost predicate Valid()
    {
      forall i, j :: 0 <= i < j < |adventurers| ==> adventurers[i] != adventurers[j]
    }

    function Snapshot(): World
      reads this, adventurers
    {
      World(dimension, mountains, treasures, States(adventurers))
    }

    constructor (dimension: Dimension, mountains: seq<Mountain>, treasures: seq<Treasure>,
                 adventurers: seq<Adventurer>)
      ensures this.dimension == dimension && this.mountains == mountains
      ensures this.treasures == treasures && this.adventurers == adventurers
    {
      this.dimension := dimension;
      this.mountains := mountains;
      this.treasures := treasures;
      this.adventurers := adventurers;
    }
  }
}
