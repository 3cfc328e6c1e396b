/** `TreasureHuntService.StartTreasureHunt`: plays the adventurers' instructions
    on a map, one round at a time, until every instruction queue is empty.

    In a round, every adventurer that still has instructions, in list order,
    takes the next one: 'A' advances one cell, 'G' turns left, 'D' turns right,
    anything else is dropped. An advance is refused when the target cell is
    off the map, holds a mountain, or is where some adventurer stands at that
    moment, so an adventurer that moved earlier in the round blocks a later one.
    Arriving on a cell with treasure takes one unit of it.

    The specification functions (`Advanced`, `Stepped`, `Round`, `Hunt`) work on
    `World` values; the methods (`Advance`, `CollectTreasure`, `HuntOneTurn`,
    `StartTreasureHunt`) update a `Map` and its `Adventurer` objects in place
    and are each proved to leave the map's snapshot equal to their
    specification function applied to the snapshot before. */
module TreasureHuntService {
  import opened Models
  import opened Collections

  // ---------------------------------------------------------------------------
  // Turning and moving

  /** A quarter turn counter-clockwise, as arithmetic on the heading's degrees.
      Both operands are non-negative here, so `%` agrees with C#'s. */
  function TurnLeft(o: Orientation): (r: Orientation)
    ensures r == CounterClockwise(o)
  {
    FromDegrees((Degrees(o) - 90 + 360) % 360)
  }

  /** A quarter turn clockwise. */
  function TurnRight(o: Orientation): (r: Orientation)
    ensures r == Clockwise(o)
  {
    FromDegrees((Degrees(o) + 90 + 360) % 360)
  }

  /** The cell one step ahead, through the displacement table. */
  function GetAdventurerNewPosition(adventurer: AdventurerState): Position {
    OrientationToPositionIsTotal(adventurer.orientation);
    var modifier := OrientationToPosition[adventurer.orientation];
    Position(adventurer.position.x + modifier.x, adventurer.position.y + modifier.y)
  }

  /** Off the map: a negative coordinate, or one beyond the extent. A coordinate
      equal to the extent is on the map. */
  predicate IsNotInMap(position: Position, dimension: Dimension) {
    if Max(position.x, dimension.width) > dimension.width || Max(position.y, dimension.height) > dimension.height then
      true
    else
      position.x < 0 || position.y < 0
  }

  /** Some mountain or some adventurer (the moving one included) is on the cell. */
  predicate IsCollidingWithEntity(position: Position, mountains: seq<Mountain>, adventurers: seq<AdventurerState>) {
    (exists i :: 0 <= i < |mountains| && mountains[i].position == position) ||
    (exists j :: 0 <= j < |adventurers| && adventurers[j].position == position)
  }

  predicate IsCollidingWithEntityOrEdge(position: Position, dimension: Dimension, mountains: seq<Mountain>,
                                        adventurers: seq<AdventurerState>)
  {
    IsNotInMap(position, dimension) || IsCollidingWithEntity(position, mountains, adventurers)
  }

  predicate IsCollidingWithTreasure(position: Position, treasures: seq<Treasure>) {
    exists k :: 0 <= k < |treasures| && treasures[k].position == position
  }

  /** `treasures.First(t => t.Position == position)`. */
  function FirstTreasureAt(treasures: seq<Treasure>, position: Position): (t: Treasure)
    requires IsCollidingWithTreasure(position, treasures)
    ensures t in treasures && t.position == position
    decreases |treasures|
  {
    if treasures[0].position == position then
      treasures[0]
    else
      assert forall k :: 1 <= k < |treasures| ==> treasures[k] == treasures[1..][k - 1];
      FirstTreasureAt(treasures[1..], position)
  }

  // ---------------------------------------------------------------------------
  // The game on values

  /** The world with the `i`-th adventurer replaced. */
  function WithAdventurer(w: World, i: nat, adventurer: AdventurerState): World
    requires i < |w.adventurers|
  {
    w.(adventurers := w.adventurers[i := adventurer])
  }

  /** What `CollectTreasure` does to the world: the `i`-th adventurer's count
      goes up by one and one treasure unit on its cell leaves the list. */
  function Collected(w: World, i: nat): World
    requires i < |w.adventurers|
    requires IsCollidingWithTreasure(w.adventurers[i].position, w.treasures)
  {
    var adventurer := w.adventurers[i];
    var treasure := FirstTreasureAt(w.treasures, adventurer.position);
    WithAdventurer(w, i, adventurer.(nbTreasures := IncrementUInt(adventurer.nbTreasures)))
      .(treasures := RemoveFirst(w.treasures, treasure))
  }

  /** What `Advance` does to the world for the `i`-th adventurer. */
  function Advanced(w: World, i: nat): World
    requires i < |w.adventurers|
  {
    var adventurer := w.adventurers[i];
    var newPosition := GetAdventurerNewPosition(adventurer);
    if IsCollidingWithEntityOrEdge(newPosition, w.dimension, w.mountains, w.adventurers) then
      w
    else
      var moved := WithAdventurer(w, i, adventurer.(position := newPosition));
      if !IsCollidingWithTreasure(newPosition, moved.treasures) then moved else Collected(moved, i)
  }

  /** The `i`-th adventurer's turn within a round. */
  function Stepped(w: World, i: nat): World
    requires i < |w.adventurers|
  {
    var adventurer := w.adventurers[i];
    if adventurer.instructions == [] then
      w
    else
      var popped := adventurer.(instructions := adventurer.instructions[1..]);
      Performed(WithAdventurer(w, i, popped), i, adventurer.instructions[0])
  }

  /** What the `i`-th adventurer does for one dequeued instruction. */
  function Performed(w: World, i: nat, instruction: char): World
    requires i < |w.adventurers|
  {
    var adventurer := w.adventurers[i];
    match instruction
    case 'A' => Advanced(w, i)
    case 'G' => WithAdventurer(w, i, adventurer.(orientation := TurnLeft(adventurer.orientation)))
    case 'D' => WithAdventurer(w, i, adventurer.(orientation := TurnRight(adventurer.orientation)))
    case _ => w
  }

  /** The adventurers' list, their names and the map's shape are those of `w`. */
  predicate SameFrame(w: World, w': World) {
    && w'.dimension == w.dimension
    && w'.mountains == w.mountains
    && |w'.adventurers| == |w.adventurers|
    && forall j :: 0 <= j < |w.adventurers| ==> w'.adventurers[j].name == w.adventurers[j].name
  }

  /** The queue once its head has been taken, if it has one. */
  function Dequeued(instructions: seq<char>): seq<char> {
    if instructions == [] then [] else instructions[1..]
  }

  /** A turn changes only the turning adventurer's queue, by taking its head. */
  lemma SteppedQueues(w: World, i: nat)
    requires i < |w.adventurers|
    ensures SameFrame(w, Stepped(w, i))
    ensures Stepped(w, i).adventurers[i].instructions == Dequeued(w.adventurers[i].instructions)
    ensures forall j :: 0 <= j < |w.adventurers| && j != i ==>
              Stepped(w, i).adventurers[j].instructions == w.adventurers[j].instructions
  {
  }

  /** The turns of adventurers `i..` of this round. */
  function RoundFrom(w: World, i: nat): World
    requires i <= |w.adventurers|
    decreases |w.adventurers| - i
  {
    if i == |w.adventurers| then
      w
    else
      SteppedQueues(w, i);
      RoundFrom(Stepped(w, i), i + 1)
  }

  /** What `HuntOneTurn` does: one round, every adventurer in list order. */
  function Round(w: World): World {
    RoundFrom(w, 0)
  }

  /** Some adventurer still has an instruction (the loop condition). */
  predicate HasPendingInstructions(adventurers: seq<AdventurerState>) {
    exists j :: 0 <= j < |adventurers| && adventurers[j].instructions != []
  }

  /** The length of the longest queue. */
  function MaxQueue(adventurers: seq<AdventurerState>): (n: nat)
    ensures forall j :: 0 <= j < |adventurers| ==> |adventurers[j].instructions| <= n
    ensures n == 0 || exists j :: 0 <= j < |adventurers| && |adventurers[j].instructions| == n
    decreases |adventurers|
  {
    if |adventurers| == 0 then
      0
    else
      var rest := MaxQueue(adventurers[1..]);
      assert forall j :: 1 <= j < |adventurers| ==> adventurers[j] == adventurers[1..][j - 1];
      Max(|adventurers[0].instructions|, rest)
  }

  /** Rounds `i..` take the heads of the queues of adventurers `i..` and no others. */
  lemma {:induction false} RoundFromQueues(w: World, i: nat)
    requires i <= |w.adventurers|
    ensures SameFrame(w, RoundFrom(w, i))
    ensures forall j :: 0 <= j < i ==> RoundFrom(w, i).adventurers[j].instructions == w.adventurers[j].instructions
    ensures forall j :: i <= j < |w.adventurers| ==>
              RoundFrom(w, i).adventurers[j].instructions == Dequeued(w.adventurers[j].instructions)
    decreases |w.adventurers| - i
  {
    if i < |w.adventurers| {
      SteppedQueues(w, i);
      RoundFromQueues(Stepped(w, i), i + 1);
    }
  }

  /** In a round every adventurer with a pending instruction takes exactly one,
      and the others are skipped. */
  lemma RoundQueues(w: World)
    ensures SameFrame(w, Round(w))
    ensures forall j :: 0 <= j < |w.adventurers| ==>
              Round(w).adventurers[j].instructions == Dequeued(w.adventurers[j].instructions)
  {
    RoundFromQueues(w, 0);
  }

  /** A round shortens the longest queue by one. */
  lemma RoundShortensLongestQueue(w: World)
    requires HasPendingInstructions(w.adventurers)
    ensures MaxQueue(Round(w).adventurers) == MaxQueue(w.adventurers) - 1
  {
    RoundQueues(w);
    var before := w.adventurers;
    var after := Round(w).adventurers;
    var n := MaxQueue(before);
    var k :| 0 <= k < |before| && before[k].instructions != [];
    assert n > 0;
    var m :| 0 <= m < |before| && |before[m].instructions| == n;
    assert |after[m].instructions| == n - 1;
    forall j | 0 <= j < |after| ensures |after[j].instructions| <= n - 1 {
      assert |before[j].instructions| <= n;
    }
  }

  /** What `StartTreasureHunt` does: rounds until no queue holds an instruction. */
  function Hunt(w: World): World
    decreases MaxQueue(w.adventurers)
  {
    if !HasPendingInstructions(w.adventurers) then
      w
    else
      RoundShortensLongestQueue(w);
      Hunt(Round(w))
  }

  // ---------------------------------------------------------------------------
  // The game on the map, in place

  /** `CollectTreasure`: one more treasure for the adventurer, and one unit
      fewer on its cell. */
  method CollectTreasure(board: Map, adventurer: Adventurer, ghost i: nat)
    requires board.Valid() && i < |board.adventurers| && board.adventurers[i] == adventurer
    requires IsCollidingWithTreasure(adventurer.position, board.treasures)
    modifies board, adventurer
    ensures board.Snapshot() == Collected(old(board.Snapshot()), i)
  {
    ghost var before := board.Snapshot();
    adventurer.nbTreasures := IncrementUInt(adventurer.nbTreasures);
    var treasure := FirstTreasureAt(board.treasures, adventurer.position);
    board.treasures := RemoveFirst(board.treasures, treasure);
    assert States(board.adventurers) == before.adventurers[i := adventurer.State()];
  }

  /** `Advance`: moves the adventurer one cell ahead unless the cell is off the
      map or occupied, and collects a treasure unit where it arrives. */
  method Advance(board: Map, adventurer: Adventurer, ghost i: nat)
    requires board.Valid() && i < |board.adventurers| && board.adventurers[i] == adventurer
    modifies board, adventurer
    ensures board.Snapshot() == Advanced(old(board.Snapshot()), i)
  {
    ghost var before := board.Snapshot();
    var newPosition := GetAdventurerNewPosition(adventurer.State());
    if IsCollidingWithEntityOrEdge(newPosition, board.dimension, board.mountains, States(board.adventurers)) {
      return;
    }
    adventurer.position := newPosition;
    assert States(board.adventurers) == before.adventurers[i := adventurer.State()];
    if IsCollidingWithTreasure(newPosition, board.treasures) {
      CollectTreasure(board, adventurer, i);
    }
  }

  /** `HuntOneTurn`: every adventurer with an instruction left, in list order,
      takes the next one and carries it out. */
  method HuntOneTurn(board: Map)
    requires board.Valid()
    modifies board, board.adventurers
    ensures board.Snapshot() == Round(old(board.Snapshot()))
  {
    for i := 0 to |board.adventurers|
      invariant RoundFrom(board.Snapshot(), i) == Round(old(board.Snapshot()))
    {
      TakeTurn(board, board.adventurers[i], i);
    }
  }

  /** The body of the `HuntOneTurn` loop: an adventurer without instructions is
      skipped; otherwise it dequeues the next one and carries it out. */
  method TakeTurn(board: Map, adventurer: Adventurer, ghost i: nat)
    requires board.Valid() && i < |board.adventurers| && board.adventurers[i] == adventurer
    modifies board, adventurer
    ensures board.Snapshot() == Stepped(old(board.Snapshot()), i)
  {
    ghost var before := board.Snapshot();
    if adventurer.instructions == [] {
      assert before.adventurers[i] == adventurer.State();
      return;
    }
    var instruction := adventurer.Dequeue();
    assert States(board.adventurers) == before.adventurers[i := adventurer.State()];
    Perform(board, adventurer, i, instruction);
  }

  /** The `switch` of the `HuntOneTurn` loop: advance, turn, or nothing. */
  method Perform(board: Map, adventurer: Adventurer, ghost i: nat, instruction: char)
    requires board.Valid() && i < |board.adventurers| && board.adventurers[i] == adventurer
    modifies board, adventurer
    ensures board.Snapshot() == Performed(old(board.Snapshot()), i, instruction)
  {
    ghost var before := board.Snapshot();
    if instruction == 'A' {
      Advance(board, adventurer, i);
    } else if instruction == 'G' {
      adventurer.orientation := TurnLeft(adventurer.orientation);
      assert States(board.adventurers) == before.adventurers[i := adventurer.State()];
    } else if instruction == 'D' {
      adventurer.orientation := TurnRight(adventurer.orientation);
      assert States(board.adventurers) == before.adventurers[i := adventurer.State()];
    }
  }

  /** `StartTreasureHunt`: rounds until every queue is empty; the map is
      updated in place and returned. */
  method StartTreasureHunt(board: Map) returns (r: Map)
    requires board.Valid()
    modifies board, board.adventurers
    ensures r == board && board.Snapshot() == Hunt(old(board.Snapshot()))
  {
    while HasPendingInstructions(States(board.adventurers))
      invariant Hunt(board.Snapshot()) == Hunt(old(board.Snapshot()))
      decreases MaxQueue(States(board.adventurers))
    {
      ghost var before := board.Snapshot();
      RoundShortensLongestQueue(before);
      HuntOneTurn(board);
    }
    return board;
  }
}
