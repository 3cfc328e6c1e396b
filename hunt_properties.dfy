/** What the treasure hunt guarantees: the turning algebra, what one advance
    does, how the queues drain, and the quantities a whole hunt keeps. */
module TreasureHuntProperties {
  import opened Models
  import opened Collections
  import opened TreasureHuntService

  // ---------------------------------------------------------------------------
  // Turning

  /** A left turn undoes a right turn and the other way round. */
  lemma TurnsCancel(o: Orientation)
    ensures TurnLeft(TurnRight(o)) == o && TurnRight(TurnLeft(o)) == o
  {
  }

  /** Four identical quarter turns come back to the start. */
  lemma FourTurnsAreIdentity(o: Orientation)
    ensures TurnRight(TurnRight(TurnRight(TurnRight(o)))) == o
    ensures TurnLeft(TurnLeft(TurnLeft(TurnLeft(o)))) == o
  {
  }

  /** Facing the other way negates the displacement. */
  lemma OppositeDisplacement(o: Orientation)
    ensures OrientationToPosition[TurnRight(TurnRight(o))].x == -OrientationToPosition[o].x
    ensures OrientationToPosition[TurnRight(TurnRight(o))].y == -OrientationToPosition[o].y
  {
  }

  // ---------------------------------------------------------------------------
  // One instruction

  /** The map the engine lets adventurers walk on is the closed rectangle
      [0, width] x [0, height]. */
  lemma IsNotInMapIff(position: Position, dimension: Dimension)
    ensures IsNotInMap(position, dimension) <==>
              !(0 <= position.x <= dimension.width && 0 <= position.y <= dimension.height)
  {
  }

  /** The target of an advance is one cell away along exactly one axis. */
  lemma NewPositionIsNeighbour(adventurer: AdventurerState)
    ensures var p := GetAdventurerNewPosition(adventurer);
      var dx := p.x - adventurer.position.x;
      var dy := p.y - adventurer.position.y;
      (dx == 0 && (dy == 1 || dy == -1)) || (dy == 0 && (dx == 1 || dx == -1))
  {
    DisplacementIsUnitStep(adventurer.orientation);
  }

  /** A blocked advance leaves the whole world as it was. */
  lemma BlockedAdvanceChangesNothing(w: World, i: nat)
    requires i < |w.adventurers|
    requires IsCollidingWithEntityOrEdge(GetAdventurerNewPosition(w.adventurers[i]), w.dimension,
                                         w.mountains, w.adventurers)
    ensures Advanced(w, i) == w
  {
  }

  /** An advance onto a free cell moves only that adventurer, and takes one
      treasure unit exactly when the cell holds one. */
  lemma FreeAdvance(w: World, i: nat)
    requires i < |w.adventurers|
    requires !IsCollidingWithEntityOrEdge(GetAdventurerNewPosition(w.adventurers[i]), w.dimension,
                                          w.mountains, w.adventurers)
    ensures var a := w.adventurers[i];
      var p := GetAdventurerNewPosition(a);
      var a' := Advanced(w, i).adventurers[i];
      && SameFrame(w, Advanced(w, i))
      && a'.position == p && a'.orientation == a.orientation && a'.instructions == a.instructions
      && (forall j :: 0 <= j < |w.adventurers| && j != i ==> Advanced(w, i).adventurers[j] == w.adventurers[j])
      && (IsCollidingWithTreasure(p, w.treasures) ==>
            multiset(Advanced(w, i).treasures) == multiset(w.treasures) - multiset{Treasure(p)} &&
            a'.nbTreasures == IncrementUInt(a.nbTreasures))
      && (!IsCollidingWithTreasure(p, w.treasures) ==>
            Advanced(w, i).treasures == w.treasures && a'.nbTreasures == a.nbTreasures)
  {
    var a := w.adventurers[i];
    var p := GetAdventurerNewPosition(a);
    if IsCollidingWithTreasure(p, w.treasures) {
      var moved := WithAdventurer(w, i, a.(position := p));
      var t := FirstTreasureAt(moved.treasures, p);
      assert t == Treasure(p);
    }
  }

  /** A turn changes the heading and takes the head of the queue, nothing else. */
  lemma TurnStep(w: World, i: nat)
    requires i < |w.adventurers|
    requires w.adventurers[i].instructions != []
    requires w.adventurers[i].instructions[0] in "GD"
    ensures var a := w.adventurers[i];
      var turned := if a.instructions[0] == 'G' then TurnLeft(a.orientation) else TurnRight(a.orientation);
      Stepped(w, i) == WithAdventurer(w, i, a.(orientation := turned, instructions := a.instructions[1..]))
  {
  }

  /** A character other than A, G or D is taken off the queue and does nothing. */
  lemma InvalidInstructionIsDropped(w: World, i: nat)
    requires i < |w.adventurers|
    requires w.adventurers[i].instructions != []
    requires w.adventurers[i].instructions[0] !in "AGD"
    ensures var a := w.adventurers[i];
      Stepped(w, i) == WithAdventurer(w, i, a.(instructions := a.instructions[1..]))
  {
  }

  /** Only an advance can collect: any other step leaves treasures and counts
      alone, so standing on a treasure collects nothing. */
  lemma OnlyArrivalCollects(w: World, i: nat)
    requires i < |w.adventurers|
    requires w.adventurers[i].instructions == [] || w.adventurers[i].instructions[0] != 'A'
    ensures Stepped(w, i).treasures == w.treasures
    ensures forall j :: 0 <= j < |w.adventurers| ==>
              Stepped(w, i).adventurers[j].nbTreasures == w.adventurers[j].nbTreasures
              && Stepped(w, i).adventurers[j].position == w.adventurers[j].position
  {
  }

  // ---------------------------------------------------------------------------
  // Quantities a step keeps

  /** The treasure units collected so far, over all adventurers. */
  function CollectedUnits(adventurers: seq<AdventurerState>): nat
    decreases |adventurers|
  {
    if |adventurers| == 0 then 0 else adventurers[0].nbTreasures + CollectedUnits(adventurers[1..])
  }

  /** Units on the map plus units collected. */
  function Total(w: World): nat {
    |w.treasures| + CollectedUnits(w.adventurers)
  }

  const TwoTo32: nat := 0x1_0000_0000

  lemma {:induction false} CollectedUnitsUpdate(adventurers: seq<AdventurerState>, i: nat, a: AdventurerState)
    requires i < |adventurers|
    ensures CollectedUnits(adventurers[i := a]) ==
            CollectedUnits(adventurers) - adventurers[i].nbTreasures + a.nbTreasures
    ensures adventurers[i].nbTreasures <= CollectedUnits(adventurers)
    decreases |adventurers|
  {
    if i > 0 {
      CollectedUnitsUpdate(adventurers[1..], i - 1, a);
      assert adventurers[i := a][1..] == adventurers[1..][i - 1 := a];
    }
  }

  /** The cells of the mountains and adventurers are pairwise distinct and
      no adventurer is off the map. */
  predicate Playable(w: World) {
    && Distinct(MountainPositions(w.mountains) + AdventurerPositions(w.adventurers))
    && forall j :: 0 <= j < |w.adventurers| ==> !IsNotInMap(w.adventurers[j].position, w.dimension)
  }

  /** What every step, round and hunt keeps going from `w` to `w'`. */
  predicate Keeps(w: World, w': World) {
    && SameFrame(w, w')
    && multiset(w'.treasures) <= multiset(w.treasures)
    && Total(w') % TwoTo32 == Total(w) % TwoTo32
    && (Total(w) < TwoTo32 ==> Total(w') == Total(w))
    && (Playable(w) ==> Playable(w'))
  }

  lemma KeepsTransitive(a: World, b: World, c: World)
    requires Keeps(a, b) && Keeps(b, c)
    ensures Keeps(a, c)
  {
  }

  /** Replacing one element by a fresh value keeps the elements distinct. */
  lemma DistinctUpdate<T>(s: seq<T>, k: nat, x: T)
    requires Distinct(s) && k < |s|
    requires forall j :: 0 <= j < |s| ==> s[j] != x
    ensures Distinct(s[k := x])
  {
  }

  /** Collecting moves one unit from the map to an adventurer's count, which
      wraps around only when that count is at the `uint` maximum. */
  lemma CollectedTotal(w: World, i: nat)
    requires i < |w.adventurers|
    requires IsCollidingWithTreasure(w.adventurers[i].position, w.treasures)
    ensures Total(Collected(w, i)) % TwoTo32 == Total(w) % TwoTo32
    ensures Total(w) < TwoTo32 ==> Total(Collected(w, i)) == Total(w)
  {
    var a := w.adventurers[i];
    var w' := Collected(w, i);
    CollectedUnitsUpdate(w.adventurers, i, a.(nbTreasures := IncrementUInt(a.nbTreasures)));
    assert |w'.treasures| == |w.treasures| - 1;
    if Total(w) < TwoTo32 {
      assert a.nbTreasures <= Total(w) - 1;
    }
  }

  lemma CollectedKeeps(w: World, i: nat)
    requires i < |w.adventurers|
    requires IsCollidingWithTreasure(w.adventurers[i].position, w.treasures)
    ensures Keeps(w, Collected(w, i))
  {
    CollectedTotal(w, i);
    assert AdventurerPositions(Collected(w, i).adventurers) == AdventurerPositions(w.adventurers);
  }

  lemma MoveKeeps(w: World, i: nat, p: Position)
    requires i < |w.adventurers|
    requires !IsCollidingWithEntityOrEdge(p, w.dimension, w.mountains, w.adventurers)
    ensures Keeps(w, WithAdventurer(w, i, w.adventurers[i].(position := p)))
  {
    var w' := WithAdventurer(w, i, w.adventurers[i].(position := p));
    CollectedUnitsUpdate(w.adventurers, i, w.adventurers[i].(position := p));
    var before := MountainPositions(w.mountains) + AdventurerPositions(w.adventurers);
    var after := MountainPositions(w'.mountains) + AdventurerPositions(w'.adventurers);
    assert after == before[|w.mountains| + i := p];
    if Playable(w) {
      forall j | 0 <= j < |before| ensures before[j] != p {
        if j < |w.mountains| {
          assert before[j] == w.mountains[j].position;
        } else {
          assert before[j] == w.adventurers[j - |w.mountains|].position;
        }
      }
      DistinctUpdate(before, |w.mountains| + i, p);
    }
  }

  lemma AdvancedKeeps(w: World, i: nat)
    requires i < |w.adventurers|
    ensures Keeps(w, Advanced(w, i))
  {
    var a := w.adventurers[i];
    var p := GetAdventurerNewPosition(a);
    if !IsCollidingWithEntityOrEdge(p, w.dimension, w.mountains, w.adventurers) {
      var moved := WithAdventurer(w, i, a.(position := p));
      MoveKeeps(w, i, p);
      if IsCollidingWithTreasure(p, moved.treasures) {
        CollectedKeeps(moved, i);
        KeepsTransitive(w, moved, Collected(moved, i));
      }
    }
  }

  /** Changing an adventurer's heading or queue keeps everything. */
  lemma RetargetKeeps(w: World, i: nat, a: AdventurerState)
    requires i < |w.adventurers|
    requires a.name == w.adventurers[i].name && a.position == w.adventurers[i].position
    requires a.nbTreasures == w.adventurers[i].nbTreasures
    ensures Keeps(w, WithAdventurer(w, i, a))
  {
    var w' := WithAdventurer(w, i, a);
    CollectedUnitsUpdate(w.adventurers, i, a);
    assert AdventurerPositions(w'.adventurers) == AdventurerPositions(w.adventurers);
  }

  lemma PerformedKeeps(w: World, i: nat, instruction: char)
    requires i < |w.adventurers|
    ensures Keeps(w, Performed(w, i, instruction))
  {
    var a := w.adventurers[i];
    match instruction
    case 'A' => AdvancedKeeps(w, i);
    case 'G' => RetargetKeeps(w, i, a.(orientation := TurnLeft(a.orientation)));
    case 'D' => RetargetKeeps(w, i, a.(orientation := TurnRight(a.orientation)));
    case _ =>
  }

  lemma SteppedKeeps(w: World, i: nat)
    requires i < |w.adventurers|
    ensures Keeps(w, Stepped(w, i))
  {
    var a := w.adventurers[i];
    if a.instructions != [] {
      var popped := a.(instructions := a.instructions[1..]);
      var w' := WithAdventurer(w, i, popped);
      RetargetKeeps(w, i, popped);
      PerformedKeeps(w', i, a.instructions[0]);
      KeepsTransitive(w, w', Stepped(w, i));
    }
  }

  lemma {:induction false} RoundFromKeeps(w: World, i: nat)
    requires i <= |w.adventurers|
    ensures Keeps(w, RoundFrom(w, i))
    decreases |w.adventurers| - i
  {
    if i < |w.adventurers| {
      SteppedKeeps(w, i);
      RoundFromKeeps(Stepped(w, i), i + 1);
      KeepsTransitive(w, Stepped(w, i), RoundFrom(w, i));
    }
  }

  lemma {:induction false} HuntKeeps(w: World)
    ensures Keeps(w, Hunt(w))
    decreases MaxQueue(w.adventurers)
  {
    if HasPendingInstructions(w.adventurers) {
      RoundShortensLongestQueue(w);
      RoundFromKeeps(w, 0);
      HuntKeeps(Round(w));
      KeepsTransitive(w, Round(w), Hunt(w));
    }
  }

  // ---------------------------------------------------------------------------
  // The whole hunt

  /** `n` rounds in a row. */
  function Rounds(w: World, n: nat): World
    decreases n
  {
    if n == 0 then w else Rounds(Round(w), n - 1)
  }

  /** The hunt ends with every queue empty. */
  lemma {:induction false} HuntEmptiesQueues(w: World)
    ensures forall j :: 0 <= j < |Hunt(w).adventurers| ==> Hunt(w).adventurers[j].instructions == []
    decreases MaxQueue(w.adventurers)
  {
    if HasPendingInstructions(w.adventurers) {
      RoundShortensLongestQueue(w);
      HuntEmptiesQueues(Round(w));
    }
  }

  /** While some queue is not empty, the hunt is one round, then the hunt. */
  lemma HuntStep(w: World)
    requires HasPendingInstructions(w.adventurers)
    ensures MaxQueue(w.adventurers) >= 1
    ensures Hunt(w) == Hunt(Round(w))
    ensures Rounds(w, MaxQueue(w.adventurers)) == Rounds(Round(w), MaxQueue(w.adventurers) - 1)
  {
    var j :| 0 <= j < |w.adventurers| && w.adventurers[j].instructions != [];
    assert |w.adventurers[j].instructions| <= MaxQueue(w.adventurers);
  }

  /** The hunt plays exactly as many rounds as the longest initial queue. */
  lemma {:induction false} HuntIsLongestQueueRounds(w: World)
    ensures Hunt(w) == Rounds(w, MaxQueue(w.adventurers))
    decreases MaxQueue(w.adventurers)
  {
    var m := MaxQueue(w.adventurers);
    if HasPendingInstructions(w.adventurers) {
      var next := Round(w);
      HuntStep(w);
      RoundShortensLongestQueue(w);
      HuntIsLongestQueueRounds(next);
      var n := MaxQueue(next.adventurers);
      assert n == m - 1;
      calc {
        Hunt(w);
        Hunt(next);
        Rounds(next, n);
        Rounds(w, m);
      }
    } else {
      assert m == 0;
      assert Hunt(w) == w;
    }
  }

  /** A map without adventurers comes back unchanged. */
  lemma HuntWithoutAdventurers(w: World)
    requires |w.adventurers| == 0
    ensures Hunt(w) == w
  {
  }

  /** Over a whole hunt: the dimension, the mountains, the adventurers' number,
      order and names stay; treasures only leave the list; units on the map
      plus units collected stay the same, modulo 2^32 because the counts are
      `uint`, and exactly when that total starts below 2^32; and a map with no
      two of its mountains and adventurers on one cell and no adventurer off
      the map stays so. */
  lemma HuntInvariants(w: World)
    ensures SameFrame(w, Hunt(w))
    ensures multiset(Hunt(w).treasures) <= multiset(w.treasures)
    ensures Total(Hunt(w)) % TwoTo32 == Total(w) % TwoTo32
    ensures Total(w) < TwoTo32 ==> Total(Hunt(w)) == Total(w)
    ensures Playable(w) ==> Playable(Hunt(w))
  {
    HuntKeeps(w);
  }
}
