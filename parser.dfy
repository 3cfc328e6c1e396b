/** `MapParser.CreateMap`: from the lines of a map text to a map, or the reason
    the text is refused.

    The text has one entity per line, fields separated by '-':
      C - width - height                 (the first data line)
      M - x - y                          (a mountain)
      T - x - y - count                  (count treasure units on one cell)
      A - name - x - y - O - moves       (an adventurer heading O in N/S/E/W)
    Blank lines and lines starting with '#' are dropped first.

    `ParseMap` and the per-line `Parse...Line` functions state what the parser
    computes; the methods `CreateMap`, `GenerateMountains`,
    `GenerateTreasures`, `GenerateAdventurers`, `VerifyAdventurerInstructions`
    and `VerifyEntitiesAreNotOverlapping` are its loops, each proved to compute
    its specification function. */
module MapParser {
  import opened Results
  import opened Text
  import opened Collections
  import opened Models

  // ---------------------------------------------------------------------------
  // Selecting lines

  predicate IsComment(line: string) {
    |line| > 0 && line[0] == '#'
  }

  /** The line's first character is `kind` (the query in `GetLinesOfType`). */
  predicate IsOfType(line: string, kind: char) {
    |line| > 0 && line[0] == kind
  }

  /** Kept by the first filter: not null-or-white-space. */
  predicate IsData(line: string) {
    !IsBlank(line)
  }

  /** Kept by the second filter: not a comment. */
  predicate IsEntry(line: string) {
    !IsComment(line)
  }

  /** The query of `GetLinesOfType`. */
  function OfType(kind: char): string -> bool {
    (l: string) => IsOfType(l, kind)
  }

  /** The first filter of `CreateMap`: drops null-or-white-space lines. */
  function RemoveBlankLines(lines: seq<string>): (r: seq<string>)
    ensures forall i :: 0 <= i < |r| ==> !IsBlank(r[i]) && r[i] in lines
    ensures forall i :: 0 <= i < |lines| && !IsBlank(lines[i]) ==> lines[i] in r
    ensures r == [] <==> forall i :: 0 <= i < |lines| ==> IsBlank(lines[i])
  {
    var r := Filter(lines, IsData);
    assert r != [] ==> exists k :: 0 <= k < |lines| && lines[k] == r[0];
    r
  }

  /** The second filter of `CreateMap`: drops the lines starting with '#'. */
  function RemoveComments(lines: seq<string>): (r: seq<string>)
    ensures forall i :: 0 <= i < |r| ==> !IsComment(r[i]) && r[i] in lines
    ensures forall i :: 0 <= i < |lines| && !IsComment(lines[i]) ==> lines[i] in r
  {
    Filter(lines, IsEntry)
  }

  /** `GetLinesOfType`: the lines whose first character is `kind`, in order. */
  function GetLinesOfType(lines: seq<string>, kind: char): (r: seq<string>)
    ensures forall i :: 0 <= i < |r| ==> IsOfType(r[i], kind) && r[i] in lines
    ensures forall i :: 0 <= i < |lines| && IsOfType(lines[i], kind) ==> lines[i] in r
  {
    Filter(lines, OfType(kind))
  }

  // ---------------------------------------------------------------------------
  // Fields of one line

  predicate IsNonZeroDigit(c: char) {
    '1' <= c <= '9'
  }

  /** The pattern `[-][1-9]+` matches at index `i`: a '-' followed by a digit 1..9. */
  predicate NegativeNumberAt(line: string, i: int) {
    0 <= i < |line| - 1 && line[i] == '-' && IsNonZeroDigit(line[i + 1])
  }

  /** The negative-number pattern occurs somewhere in the line, found by
      scanning it from the left. */
  function HasNegativeNumber(line: string): (b: bool)
    ensures b <==> exists i :: NegativeNumberAt(line, i)
    decreases |line|
  {
    if |line| < 2 then
      false
    else
      var rest := HasNegativeNumber(line[1..]);
      var here := line[0] == '-' && IsNonZeroDigit(line[1]);
      assert (here || rest) <==> exists i :: NegativeNumberAt(line, i) by {
        if rest {
          var i :| NegativeNumberAt(line[1..], i);
          assert NegativeNumberAt(line, i + 1);
        }
        if here {
          assert NegativeNumberAt(line, 0);
        }
        if i :| NegativeNumberAt(line, i) {
          if i > 0 {
            assert NegativeNumberAt(line[1..], i - 1);
          }
        }
      }
      here || rest
  }

  /** `Select(x => x.Trim())`: every field trimmed, in order. */
  function TrimFields(parts: seq<string>): (r: seq<string>)
    ensures |r| == |parts| && forall i :: 0 <= i < |r| ==> r[i] == Trim(parts[i])
  {
    Select(parts, Trim)
  }

  /** The '-'-separated fields of a line, each trimmed. */
  function Fields(line: string): (r: seq<string>)
    ensures |r| == Count(line, '-') + 1
    ensures forall i :: 0 <= i < |r| ==> IsTrimmed(r[i]) && '-' !in r[i]
  {
    var parts := Split(line, '-');
    assert forall i :: 0 <= i < |parts| ==> '-' !in Trim(parts[i]) by {
      forall i | 0 <= i < |parts| {
        TrimAbsent(parts[i], '-');
      }
    }
    TrimFields(parts)
  }

  /** `RetrieveDataFromLine`: refuses a line holding the negative-number pattern,
      otherwise splits it on '-' and trims every field. */
  function RetrieveDataFromLine(line: string): (r: Result<seq<string>>)
    ensures r.Success? <==> !HasNegativeNumber(line)
    ensures r.Failure? ==> r.error == NegativeNumber
    ensures r.Success? ==> r.value == Fields(line)
    ensures r.Success? ==> forall i :: 0 <= i < |r.value| ==> IsTrimmed(r.value[i]) && '-' !in r.value[i]
  {
    if HasNegativeNumber(line) then
      Failure(NegativeNumber)
    else
      Success(Fields(line))
  }

  /** `VerifyLineDataArgumentAmount`: too many fields is reported before too few. */
  function VerifyLineDataArgumentAmount(data: seq<string>, expected: nat, entity: EntityKind): (r: Result<()>)
    ensures r.Success? <==> |data| == expected
    ensures r.Failure? ==> r.error == (if |data| > expected then TooManyArguments(entity) else NotEnoughArguments(entity))
  {
    if |data| > expected then
      Failure(TooManyArguments(entity))
    else if |data| < expected then
      Failure(NotEnoughArguments(entity))
    else
      Success(())
  }

  /** The cell lies on the grid as the parser bounds it: both coordinates
      non-negative and strictly below the extents. */
  predicate InDimension(position: Position, dimension: Dimension) {
    0 <= position.x < dimension.width && 0 <= position.y < dimension.height
  }

  /** `VerifyEntityIsInDimension`: refuses a position whose coordinate is at
      least the matching extent, written as the C# code writes it with `Max`. */
  function VerifyEntityIsInDimension(position: Position, dimension: Dimension, entity: EntityKind): (r: Result<()>)
    ensures r.Success? <==> position.x < dimension.width && position.y < dimension.height
    ensures r.Failure? ==> r.error == OutOfBounds(entity, position.x, position.y)
  {
    if Max(position.x, dimension.width) == position.x || Max(position.y, dimension.height) == position.y then
      Failure(OutOfBounds(entity, position.x, position.y))
    else
      Success(())
  }

  /** `int.Parse` of a field; a field that is not a number is refused. */
  function ParseNumber(field: string): (r: Result<int>)
    ensures r.Success? <==> ParseInt(field).Some?
    ensures r.Success? ==> r.value >= 0 && r.value == ParseInt(field).value
    ensures r.Failure? ==> r.error == NotANumber
  {
    match ParseInt(field)
    case Some(n) => Success(n)
    case None => Failure(NotANumber)
  }

  /** `ParseOrientation`: one of N, S, E, W; each is the first letter of the
      name of the heading it selects. */
  function ParseOrientation(c: char): (r: Result<Orientation>)
    ensures r.Success? <==> c in "NSEW"
    ensures r.Success? ==> OrientationName(r.value)[0] == c
    ensures r.Failure? ==> r.error == InvalidOrientation(c)
  {
    match c
    case 'N' => Success(North)
    case 'S' => Success(South)
    case 'E' => Success(East)
    case 'W' => Success(West)
    case _ => Failure(InvalidOrientation(c))
  }

  predicate IsInstruction(c: char) {
    c == 'A' || c == 'G' || c == 'D'
  }

  /** What `VerifyAdventurerInstructions` decides: every character is A, G or D,
      otherwise the first one that is not is reported. */
  function InstructionsCheck(instructions: string): (r: Result<()>)
    ensures r.Success? <==> forall i :: 0 <= i < |instructions| ==> IsInstruction(instructions[i])
    ensures r.Success? ==> r == Success(())
    ensures r.Failure? ==> exists i :: 0 <= i < |instructions| && !IsInstruction(instructions[i]) &&
                                 r.error == InvalidInstruction(instructions[i]) &&
                                 forall j :: 0 <= j < i ==> IsInstruction(instructions[j])
    decreases |instructions|
  {
    if |instructions| == 0 then
      Success(())
    else if !IsInstruction(instructions[0]) then
      Failure(InvalidInstruction(instructions[0]))
    else
      assert forall i :: 1 <= i < |instructions| ==> instructions[1..][i - 1] == instructions[i];
      InstructionsCheck(instructions[1..])
  }

  method VerifyAdventurerInstructions(instructions: string) returns (r: Result<()>)
    ensures r == InstructionsCheck(instructions)
  {
    for i := 0 to |instructions|
      invariant forall j :: 0 <= j < i ==> IsInstruction(instructions[j])
    {
      if !IsInstruction(instructions[i]) {
        ghost var k :| 0 <= k < |instructions| && !IsInstruction(instructions[k]) &&
                       InstructionsCheck(instructions).error == InvalidInstruction(instructions[k]) &&
                       forall j :: 0 <= j < k ==> IsInstruction(instructions[j]);
        assert k == i;
        return Failure(InvalidInstruction(instructions[i]));
      }
    }
    return Success(());
  }

  // ---------------------------------------------------------------------------
  // One line, one entity

  /** `ParseMapDimension`: the field count is checked before the tag. */
  function ParseMapDimension(line: string): (r: Result<Dimension>)
    ensures r.Success? ==> Count(line, '-') == 2 && r.value.width >= 0 && r.value.height >= 0
    ensures r.Success? ==> Fields(line)[0] == "C" &&
                           ParseInt(Fields(line)[1]) == Some(r.value.width) &&
                           ParseInt(Fields(line)[2]) == Some(r.value.height)
  {
    var data :- RetrieveDataFromLine(line);
    DimensionOfFields(data)
  }

  /** The checks of `ParseMapDimension` on the trimmed fields. */
  function DimensionOfFields(data: seq<string>): (r: Result<Dimension>)
    ensures r.Success? ==> |data| == 3 && data[0] == "C" && r.value.width >= 0 && r.value.height >= 0
    ensures r.Success? ==> ParseInt(data[1]) == Some(r.value.width) && ParseInt(data[2]) == Some(r.value.height)
  {
    var _ :- VerifyLineDataArgumentAmount(data, 3, MapEntity);
    var _ :- Check(data[0] == "C", NotMapInitialization);
    var width :- ParseNumber(data[1]);
    var height :- ParseNumber(data[2]);
    Success(Dimension(width, height))
  }

  /** The body of the `GenerateMountains` loop for one line. */
  function ParseMountainLine(line: string, dimension: Dimension): (r: Result<Mountain>)
    ensures r.Success? ==> Count(line, '-') == 2 && InDimension(r.value.position, dimension)
    ensures r.Success? ==> ParseInt(Fields(line)[1]) == Some(r.value.position.x) &&
                           ParseInt(Fields(line)[2]) == Some(r.value.position.y)
  {
    var data :- RetrieveDataFromLine(line);
    MountainOfFields(data, dimension)
  }

  function MountainOfFields(data: seq<string>, dimension: Dimension): (r: Result<Mountain>)
    ensures r.Success? ==> |data| == 3 && InDimension(r.value.position, dimension)
    ensures r.Success? ==> ParseInt(data[1]) == Some(r.value.position.x) && ParseInt(data[2]) == Some(r.value.position.y)
  {
    var _ :- VerifyLineDataArgumentAmount(data, 3, MountainEntity);
    var x :- ParseNumber(data[1]);
    var y :- ParseNumber(data[2]);
    var _ :- VerifyEntityIsInDimension(Position(x, y), dimension, MountainEntity);
    Success(Mountain(Position(x, y)))
  }

  /** The body of the `GenerateTreasures` loop for one line: `count` equal units. */
  function ParseTreasureLine(line: string, dimension: Dimension): (r: Result<seq<Treasure>>)
    ensures r.Success? ==> Count(line, '-') == 3 && ParseInt(Fields(line)[3]) == Some(|r.value|)
    ensures r.Success? ==> forall i :: 0 <= i < |r.value| ==> InDimension(r.value[i].position, dimension)
  {
    var data :- RetrieveDataFromLine(line);
    TreasureOfFields(data, dimension)
  }

  function TreasureOfFields(data: seq<string>, dimension: Dimension): (r: Result<seq<Treasure>>)
    ensures r.Success? ==> |data| == 4 && ParseInt(data[3]) == Some(|r.value|)
    ensures r.Success? ==> forall i :: 0 <= i < |r.value| ==> InDimension(r.value[i].position, dimension)
  {
    var _ :- VerifyLineDataArgumentAmount(data, 4, TreasureEntity);
    var x :- ParseNumber(data[1]);
    var y :- ParseNumber(data[2]);
    var _ :- VerifyEntityIsInDimension(Position(x, y), dimension, TreasureEntity);
    var count :- ParseNumber(data[3]);
    assert InDimension(Position(x, y), dimension);
    Success(Repeat(Treasure(Position(x, y)), count))
  }

  /** The body of the `GenerateAdventurers` loop for one line. The moves are
      checked before the heading; an empty heading field has no first character. */
  function ParseAdventurerLine(line: string, dimension: Dimension): (r: Result<AdventurerState>)
    ensures r.Success? ==> Count(line, '-') == 5 && InDimension(r.value.position, dimension)
    ensures r.Success? ==> r.value.nbTreasures == 0
    ensures r.Success? ==> r.value.name == Fields(line)[1] && r.value.instructions == Fields(line)[5]
    ensures r.Success? ==> forall i :: 0 <= i < |r.value.instructions| ==> IsInstruction(r.value.instructions[i])
    ensures r.Success? ==> |Fields(line)[4]| > 0 && ParseOrientation(Fields(line)[4][0]) == Success(r.value.orientation)
  {
    var data :- RetrieveDataFromLine(line);
    AdventurerOfFields(data, dimension)
  }

  function AdventurerOfFields(data: seq<string>, dimension: Dimension): (r: Result<AdventurerState>)
    ensures r.Success? ==> |data| == 6 && InDimension(r.value.position, dimension)
    ensures r.Success? ==> r.value.nbTreasures == 0
    ensures r.Success? ==> r.value.name == data[1] && r.value.instructions == data[5]
    ensures r.Success? ==> forall i :: 0 <= i < |r.value.instructions| ==> IsInstruction(r.value.instructions[i])
    ensures r.Success? ==> |data[4]| > 0 && ParseOrientation(data[4][0]) == Success(r.value.orientation)
  {
    var _ :- VerifyLineDataArgumentAmount(data, 6, AdventurerEntity);
    var x :- ParseNumber(data[2]);
    var y :- ParseNumber(data[3]);
    var _ :- VerifyEntityIsInDimension(Position(x, y), dimension, AdventurerEntity);
    var _ :- InstructionsCheck(data[5]);
    var _ :- Check(|data[4]| > 0, IndexOutOfRange);
    var orientation :- ParseOrientation(data[4][0]);
    Success(AdventurerState(data[1], Position(x, y), orientation, 0, data[5]))
  }

  // ---------------------------------------------------------------------------
  // All lines of one kind

  function MountainParser(dimension: Dimension): string -> Result<Mountain> {
    (l: string) => ParseMountainLine(l, dimension)
  }

  function TreasureParser(dimension: Dimension): string -> Result<seq<Treasure>> {
    (l: string) => ParseTreasureLine(l, dimension)
  }

  function AdventurerParser(dimension: Dimension): string -> Result<AdventurerState> {
    (l: string) => ParseAdventurerLine(l, dimension)
  }

  function MountainsOf(lines: seq<string>, dimension: Dimension): Result<seq<Mountain>> {
    MapAll(lines, MountainParser(dimension))
  }

  function TreasureGroupsOf(lines: seq<string>, dimension: Dimension): Result<seq<seq<Treasure>>> {
    MapAll(lines, TreasureParser(dimension))
  }

  function TreasuresOf(lines: seq<string>, dimension: Dimension): Result<seq<Treasure>> {
    var groups :- TreasureGroupsOf(lines, dimension);
    Success(Flatten(groups))
  }

  function AdventurersOf(lines: seq<string>, dimension: Dimension): Result<seq<AdventurerState>> {
    MapAll(lines, AdventurerParser(dimension))
  }

  method GenerateMountains(lines: seq<string>, dimension: Dimension) returns (r: Result<seq<Mountain>>)
    ensures r == MountainsOf(lines, dimension)
  {
    var mountains: seq<Mountain> := [];
    for i := 0 to |lines|
      invariant MapAll(lines[..i], MountainParser(dimension)) == Success(mountains)
    {
      var mountain := ParseMountainLine(lines[i], dimension);
      if mountain.Failure? {
        MapAllStop(lines, i, MountainParser(dimension));
        return Failure(mountain.error);
      }
      MapAllExtend(lines, i, MountainParser(dimension));
      mountains := mountains + [mountain.value];
    }
    assert lines[..|lines|] == lines;
    return Success(mountains);
  }

  method GenerateTreasures(lines: seq<string>, dimension: Dimension) returns (r: Result<seq<Treasure>>)
    ensures r == TreasuresOf(lines, dimension)
  {
    ghost var groups: seq<seq<Treasure>> := [];
    var treasures: seq<Treasure> := [];
    for i := 0 to |lines|
      invariant MapAll(lines[..i], TreasureParser(dimension)) == Success(groups)
      invariant treasures == Flatten(groups)
    {
      var group := ParseTreasureLine(lines[i], dimension);
      if group.Failure? {
        MapAllStop(lines, i, TreasureParser(dimension));
        return Failure(group.error);
      }
      MapAllExtend(lines, i, TreasureParser(dimension));
      assert (groups + [group.value])[..|groups|] == groups;
      groups := groups + [group.value];
      treasures := treasures + group.value;
    }
    assert lines[..|lines|] == lines;
    return Success(treasures);
  }

  /** The checks of the `GenerateAdventurers` loop body for one line, in the
      order `MapParser` makes them. */
  method ParseAdventurer(line: string, dimension: Dimension) returns (r: Result<AdventurerState>)
    ensures r == ParseAdventurerLine(line, dimension)
  {
    var data :- RetrieveDataFromLine(line);
    var _ :- VerifyLineDataArgumentAmount(data, 6, AdventurerEntity);
    var x :- ParseNumber(data[2]);
    var y :- ParseNumber(data[3]);
    var position := Position(x, y);
    var _ :- VerifyEntityIsInDimension(position, dimension, AdventurerEntity);
    var instructions := data[5];
    var _ :- VerifyAdventurerInstructions(instructions);
    if |data[4]| == 0 {
      return Failure(IndexOutOfRange);
    }
    var orientation :- ParseOrientation(data[4][0]);
    return Success(AdventurerState(data[1], position, orientation, 0, instructions));
  }

  /** Checks every adventurer line in order and builds one fresh `Adventurer`
      per line. The objects are built once every line has passed; as a refusal
      discards the partial list, the order of the two makes no difference. */
  method GenerateAdventurers(lines: seq<string>, dimension: Dimension) returns (r: Result<seq<Adventurer>>)
    ensures r.Success? <==> AdventurersOf(lines, dimension).Success?
    ensures r.Failure? ==> r.error == AdventurersOf(lines, dimension).error
    ensures r.Success? ==> States(r.value) == AdventurersOf(lines, dimension).value
    ensures r.Success? ==> forall i :: 0 <= i < |r.value| ==> fresh(r.value[i])
    ensures r.Success? ==> forall i, j :: 0 <= i < j < |r.value| ==> r.value[i] != r.value[j]
  {
    var states: seq<AdventurerState> := [];
    for i := 0 to |lines|
      invariant MapAll(lines[..i], AdventurerParser(dimension)) == Success(states)
    {
      var state := ParseAdventurer(lines[i], dimension);
      if state.Failure? {
        MapAllStop(lines, i, AdventurerParser(dimension));
        return Failure(state.error);
      }
      MapAllExtend(lines, i, AdventurerParser(dimension));
      states := states + [state.value];
    }
    assert lines[..|lines|] == lines;
    var adventurers := BuildAdventurers(states);
    return Success(adventurers);
  }

  /** One fresh `Adventurer` per state, with no treasure collected yet. */
  method BuildAdventurers(states: seq<AdventurerState>) returns (adventurers: seq<Adventurer>)
    ensures States(adventurers) == states
    ensures forall i :: 0 <= i < |adventurers| ==> fresh(adventurers[i])
    ensures forall i, j :: 0 <= i < j < |adventurers| ==> adventurers[i] != adventurers[j]
  {
    adventurers := [];
    for i := 0 to |states|
      invariant States(adventurers) == states[..i]
      invariant forall j :: 0 <= j < |adventurers| ==> fresh(adventurers[j])
      invariant forall j, k :: 0 <= j < k < |adventurers| ==> adventurers[j] != adventurers[k]
    {
      var s := states[i];
      var adventurer := new Adventurer(s.name, s.position, s.orientation, s.instructions, s.nbTreasures);
      assert States(adventurers + [adventurer]) == States(adventurers) + [adventurer.State()];
      assert states[..i + 1] == states[..i] + [s];
      adventurers := adventurers + [adventurer];
    }
    assert states[..|states|] == states;
  }

  // ---------------------------------------------------------------------------
  // Overlapping entities

  /** What `VerifyEntitiesAreNotOverlapping` decides: no cell holds two of the
      mountains and adventurers together. Treasures are not involved. */
  function OverlapCheck(mountains: seq<Mountain>, adventurers: seq<AdventurerState>): (r: Result<()>)
  {
    Check(Distinct(MountainPositions(mountains) + AdventurerPositions(adventurers)), Overlapping)
  }

  /** Adds every position to a set in turn and stops at the first one already there. */
  method VerifyEntitiesAreNotOverlapping(mountains: seq<Mountain>, adventurers: seq<Adventurer>) returns (r: Result<()>)
    ensures r == OverlapCheck(mountains, States(adventurers))
  {
    var adventurerPositions := seq(|adventurers|, i requires 0 <= i < |adventurers| reads adventurers => adventurers[i].position);
    var allPositions := MountainPositions(mountains) + adventurerPositions;
    assert allPositions == MountainPositions(mountains) + AdventurerPositions(States(adventurers));
    var seen: set<Position> := {};
    for i := 0 to |allPositions|
      invariant seen == set j | 0 <= j < i :: allPositions[j]
      invariant Distinct(allPositions[..i])
    {
      if allPositions[i] in seen {
        return Failure(Overlapping);
      }
      seen := seen + {allPositions[i]};
    }
    assert allPositions[..|allPositions|] == allPositions;
    return Success(());
  }

  // ---------------------------------------------------------------------------
  // The whole text

  /** What `CreateMap` computes. The dimension line is the first line left after
      both filters; when every data line is a comment there is none, and the
      C# code's `lines[0]` fails. */
  function ParseMap(lines: seq<string>): Result<World> {
    var data := RemoveBlankLines(lines);
    if |data| < 1 then
      Failure(NoData)
    else
      var entries := RemoveComments(data);
      if |entries| == 0 then Failure(IndexOutOfRange) else ParseEntries(entries)
  }

  /** The part of `CreateMap` after the filters: the dimension line comes first. */
  function ParseEntries(entries: seq<string>): Result<World>
    requires |entries| > 0
  {
    var dimension :- ParseMapDimension(entries[0]);
    ParseEntities(entries, dimension)
  }

  /** Mountains, adventurers, the overlap check, then treasures. */
  function ParseEntities(entries: seq<string>, dimension: Dimension): Result<World> {
    var mountains :- MountainsOf(GetLinesOfType(entries, 'M'), dimension);
    var adventurers :- AdventurersOf(GetLinesOfType(entries, 'A'), dimension);
    CompleteWorld(entries, dimension, mountains, adventurers)
  }

  /** The overlap check on the parsed entities, then the treasures. */
  function CompleteWorld(entries: seq<string>, dimension: Dimension, mountains: seq<Mountain>,
                         adventurers: seq<AdventurerState>): Result<World>
  {
    var _ :- OverlapCheck(mountains, adventurers);
    var treasures :- TreasuresOf(GetLinesOfType(entries, 'T'), dimension);
    Success(World(dimension, mountains, treasures, adventurers))
  }

  method CreateMap(lines: seq<string>) returns (r: Result<Map>)
    ensures r.Success? <==> ParseMap(lines).Success?
    ensures r.Failure? ==> r.error == ParseMap(lines).error
    ensures r.Success? ==> fresh(r.value) && r.value.Valid() && r.value.Snapshot() == ParseMap(lines).value
    ensures r.Success? ==> forall i :: 0 <= i < |r.value.adventurers| ==> fresh(r.value.adventurers[i])
  {
    var data := RemoveBlankLines(lines);
    if |data| < 1 {
      return Failure(NoData);
    }
    data := RemoveComments(data);
    if |data| == 0 {
      return Failure(IndexOutOfRange);
    }
    var dimension :- ParseMapDimension(data[0]);
    r := CreateEntities(data, dimension);
  }

  /** The rest of `CreateMap` once the dimension is known. */
  method CreateEntities(entries: seq<string>, dimension: Dimension) returns (r: Result<Map>)
    ensures r.Success? <==> ParseEntities(entries, dimension).Success?
    ensures r.Failure? ==> r.error == ParseEntities(entries, dimension).error
    ensures r.Success? ==> fresh(r.value) && r.value.Valid() && r.value.Snapshot() == ParseEntities(entries, dimension).value
    ensures r.Success? ==> forall i :: 0 <= i < |r.value.adventurers| ==> fresh(r.value.adventurers[i])
  {
    var mountains :- GenerateMountains(GetLinesOfType(entries, 'M'), dimension);
    var adventurers :- GenerateAdventurers(GetLinesOfType(entries, 'A'), dimension);
    assert ParseEntities(entries, dimension) == CompleteWorld(entries, dimension, mountains, States(adventurers));
    r := CompleteMap(entries, dimension, mountains, adventurers);
  }

  /** The overlap check, the treasures and the map itself. */
  method CompleteMap(entries: seq<string>, dimension: Dimension, mountains: seq<Mountain>,
                     adventurers: seq<Adventurer>) returns (r: Result<Map>)
    requires forall i, j :: 0 <= i < j < |adventurers| ==> adventurers[i] != adventurers[j]
    ensures r.Success? <==> CompleteWorld(entries, dimension, mountains, States(adventurers)).Success?
    ensures r.Failure? ==> r.error == CompleteWorld(entries, dimension, mountains, States(adventurers)).error
    ensures r.Success? ==> fresh(r.value) && r.value.Valid() && r.value.adventurers == adventurers
    ensures r.Success? ==> r.value.Snapshot() == CompleteWorld(entries, dimension, mountains, States(adventurers)).value
  {
    var _ :- VerifyEntitiesAreNotOverlapping(mountains, adventurers);
    var treasures :- GenerateTreasures(GetLinesOfType(entries, 'T'), dimension);
    var created := new Map(dimension, mountains, treasures, adventurers);
    return Success(created);
  }
}
