/** Concrete runs from the repository's unit tests, on its sample 5 x 4 map:
    the hunt blocked by another adventurer, by a mountain and by the edge, one
    unit collected from a stack, and a line refused for a negative number. */
module Scenarios {
  import opened Results
  import opened Collections
  import opened Models
  import opened MapParser
  import opened TreasureHuntService

  const Sample: Dimension := Dimension(5, 4)

  /** An adventurer blocked by another keeps its cell while the other, later in
      the list, moves on in the same round. */
  lemma AdventurerBlocksAdventurer()
    ensures Hunt(World(Sample, [], [], [AdventurerState("Sophie", Position(2, 2), North, 0, "A"),
                                       AdventurerState("Lara", Position(2, 1), East, 0, "A")])).adventurers
            == [AdventurerState("Sophie", Position(2, 2), North, 0, ""),
                AdventurerState("Lara", Position(3, 1), East, 0, "")]
  {
    var w0 := World(Sample, [], [], [AdventurerState("Sophie", Position(2, 2), North, 0, "A"),
                                    AdventurerState("Lara", Position(2, 1), East, 0, "A")]);
    var w1 := World(Sample, [], [], [AdventurerState("Sophie", Position(2, 2), North, 0, ""),
                                    AdventurerState("Lara", Position(2, 1), East, 0, "A")]);
    var w2 := World(Sample, [], [], [AdventurerState("Sophie", Position(2, 2), North, 0, ""),
                                    AdventurerState("Lara", Position(3, 1), East, 0, "")]);
    assert w1.adventurers[1].position == Position(2, 1);
    assert Stepped(w0, 0) == w1;
    assert Stepped(w1, 1) == w2;
    assert Round(w0) == w2;
    assert !HasPendingInstructions(w2.adventurers);
  }

  const Unit: Treasure := Treasure(Position(1, 0))

  /** Stepping onto a stack of three units takes the first of them. */
  lemma StackStep()
    ensures Stepped(World(Sample, [], [Unit, Unit, Unit], [AdventurerState("Sophie", Position(0, 0), East, 0, "A")]), 0)
            == World(Sample, [], [Unit, Unit], [AdventurerState("Sophie", Position(1, 0), East, 1, "")])
  {
    var popped := World(Sample, [], [Unit, Unit, Unit], [AdventurerState("Sophie", Position(0, 0), East, 0, "")]);
    var moved := World(Sample, [], [Unit, Unit, Unit], [AdventurerState("Sophie", Position(1, 0), East, 0, "")]);
    assert GetAdventurerNewPosition(popped.adventurers[0]) == Position(1, 0);
    assert !IsCollidingWithEntityOrEdge(Position(1, 0), Sample, [], popped.adventurers);
    assert moved.treasures[0].position == Position(1, 0);
    assert IsCollidingWithTreasure(Position(1, 0), moved.treasures);
    assert FirstTreasureAt(moved.treasures, Position(1, 0)) == Unit;
    assert RemoveFirst([Unit, Unit, Unit], Unit) == [Unit, Unit];
    assert IncrementUInt(0) == 1;
    var w0 := World(Sample, [], [Unit, Unit, Unit], [AdventurerState("Sophie", Position(0, 0), East, 0, "A")]);
    assert WithAdventurer(w0, 0, popped.adventurers[0]) == popped;
    assert w0.adventurers[0].instructions[0] == 'A' && w0.adventurers[0].instructions[1..] == [];
    assert Performed(popped, 0, 'A') == Advanced(popped, 0);
    assert Stepped(w0, 0) == Advanced(popped, 0);
    assert WithAdventurer(popped, 0, moved.adventurers[0]) == moved;
    assert Advanced(popped, 0) == Collected(moved, 0);
  }

  /** One unit of a stack of three is collected and two stay. */
  lemma CollectOneOfStack()
    ensures Hunt(World(Sample, [], [Unit, Unit, Unit], [AdventurerState("Sophie", Position(0, 0), East, 0, "A")]))
            == World(Sample, [], [Unit, Unit], [AdventurerState("Sophie", Position(1, 0), East, 1, "")])
  {
    var w0 := World(Sample, [], [Unit, Unit, Unit], [AdventurerState("Sophie", Position(0, 0), East, 0, "A")]);
    var w1 := World(Sample, [], [Unit, Unit], [AdventurerState("Sophie", Position(1, 0), East, 1, "")]);
    StackStep();
    assert RoundFrom(w1, 1) == w1;
    assert Round(w0) == RoundFrom(Stepped(w0, 0), 1);
    assert !HasPendingInstructions(w1.adventurers);
  }

  /** A move that would leave the map is skipped: from column 5 of a map of
      width 5 the engine stays, since column 5 is still on its map. */
  lemma EdgeStopsMove()
    ensures Hunt(World(Sample, [], [], [AdventurerState("Sophie", Position(5, 0), East, 0, "A")]))
            == World(Sample, [], [], [AdventurerState("Sophie", Position(5, 0), East, 0, "")])
  {
    var w0 := World(Sample, [], [], [AdventurerState("Sophie", Position(5, 0), East, 0, "A")]);
    var w1 := World(Sample, [], [], [AdventurerState("Sophie", Position(5, 0), East, 0, "")]);
    assert w0.adventurers[0].instructions[0] == 'A' && w0.adventurers[0].instructions[1..] == [];
    assert IsNotInMap(Position(6, 0), Sample);
    assert WithAdventurer(w0, 0, w1.adventurers[0]) == w1;
    assert Stepped(w0, 0) == w1;
    assert RoundFrom(w1, 1) == w1;
    assert Round(w0) == RoundFrom(Stepped(w0, 0), 1);
    assert !HasPendingInstructions(w1.adventurers);
  }

  /** A mountain ahead blocks the move. */
  lemma MountainStopsMove()
    ensures Hunt(World(Sample, [Mountain(Position(2, 1))], [], [AdventurerState("Sophie", Position(1, 1), East, 0, "A")]))
            == World(Sample, [Mountain(Position(2, 1))], [], [AdventurerState("Sophie", Position(1, 1), East, 0, "")])
  {
    var m := [Mountain(Position(2, 1))];
    var w0 := World(Sample, m, [], [AdventurerState("Sophie", Position(1, 1), East, 0, "A")]);
    var w1 := World(Sample, m, [], [AdventurerState("Sophie", Position(1, 1), East, 0, "")]);
    assert w0.adventurers[0].instructions[0] == 'A' && w0.adventurers[0].instructions[1..] == [];
    assert m[0].position == Position(2, 1);
    assert WithAdventurer(w0, 0, w1.adventurers[0]) == w1;
    assert Stepped(w0, 0) == w1;
    assert RoundFrom(w1, 1) == w1;
    assert Round(w0) == RoundFrom(Stepped(w0, 0), 1);
    assert !HasPendingInstructions(w1.adventurers);
  }

  /** A negative number anywhere refuses a line before anything else. */
  lemma NegativeCoordinateRefused()
    ensures ParseTreasureLine("T - -5 - 4", Sample) == Failure(NegativeNumber)
  {
    assert NegativeNumberAt("T - -5 - 4", 4);
  }
}
