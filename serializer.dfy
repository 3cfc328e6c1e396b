/** `MapSerializer.SerializeMap`: the text of a map after the hunt.

    The text has a commented header and one line per entity for each section
    C (dimension), M (mountains), T (treasures, one line per occupied cell with
    the number of units left there) and A (adventurers, with the number of
    units collected), in that order; a section with no entity is left out
    entirely, and the text does not end with a newline. */
module MapSerializer {
  import opened Text
  import opened Collections
  import opened Models

  // ---------------------------------------------------------------------------
  // Section headers, without their trailing newline

  // Each header is written as a few short pieces, which the verifier reads
  // character by character.
  const DimensionHeader: string :=
    "# {C comme Carte}" + " - {Nb. de case en largeur}" + " - {Nb. de case en hauteur}"
  const MountainHeader: string :=
    "# {M comme Montagne}" + " - {Axe horizontal}" + " - {Axe vertical}"
  const TreasureHeader: string :=
    "# {T comme Tr\U{E9}sor}" + " - {Axe horizontal}" + " - {Axe vertical}"
    + " - {Nb. de tr\U{E9}sors restants}"
  const AdventurerHeader: string :=
    "# {A comme Aventurier}" + " - {Nom de l\U{2019}aventurier}" + " - {Axe horizontal}"
    + " - {Axe vertical} " + "- {Orientation}" + " - {Nb. tr\U{E9}sors ramass\U{E9}s}"

  /** A header is a one-line comment. */
  predicate IsHeader(line: string) {
    |line| > 0 && line[0] == '#' && '\n' !in line
  }

  lemma DimensionHeaderIsComment()
    ensures IsHeader(DimensionHeader)
  {
  }

  lemma MountainHeaderIsComment()
    ensures IsHeader(MountainHeader)
  {
  }

  lemma TreasureHeaderIsComment()
    ensures IsHeader(TreasureHeader)
  {
  }

  lemma AdventurerHeaderIsComment()
    ensures IsHeader(AdventurerHeader)
  {
  }

  lemma HeadersAreComments()
    ensures IsHeader(DimensionHeader) && IsHeader(MountainHeader)
    ensures IsHeader(TreasureHeader) && IsHeader(AdventurerHeader)
  {
    DimensionHeaderIsComment();
    MountainHeaderIsComment();
    TreasureHeaderIsComment();
    AdventurerHeaderIsComment();
  }

  // ---------------------------------------------------------------------------
  // Building text

  /** `Aggregate("", (current, x) => current + line(x) + "\n")`: the line of
      every element, each followed by a newline, appended from the left. */
  function AggregateLines<T>(s: seq<T>, line: T -> string): string
    decreases |s|
  {
    if |s| == 0 then "" else AggregateLines(s[..|s| - 1], line) + line(s[|s| - 1]) + "\n"
  }

  /** The line of every element, in order. */
  function LinesOf<T>(s: seq<T>, line: T -> string): (r: seq<string>)
    ensures |r| == |s| && forall i :: 0 <= i < |s| ==> r[i] == line(s[i])
  {
    seq(|s|, i requires 0 <= i < |s| => line(s[i]))
  }

  /** Every line followed by a newline. */
  function Unlines(lines: seq<string>): string
    decreases |lines|
  {
    if |lines| == 0 then "" else lines[0] + "\n" + Unlines(lines[1..])
  }

  // ---------------------------------------------------------------------------
  // Entity lines

  function DimensionLine(dimension: Dimension): string {
    "C - " + IntToString(dimension.width) + " - " + IntToString(dimension.height)
  }

  function MountainLine(mountain: Mountain): string {
    "M - " + IntToString(mountain.position.x) + " - " + IntToString(mountain.position.y)
  }

  /** The units on one cell: a key of the `GroupBy` and its count. */
  datatype TreasureCount = TreasureCount(treasure: Treasure, count: nat)

  function TreasureLine(group: TreasureCount): string {
    "T - " + IntToString(group.treasure.position.x) + " - " + IntToString(group.treasure.position.y)
    + " - " + NatToString(group.count)
  }

  /** The orientation is written as the first letter of its name. */
  function AdventurerLine(adventurer: AdventurerState): string {
    "A - " + adventurer.name + " - " + IntToString(adventurer.position.x) + " - "
    + IntToString(adventurer.position.y) + " - " + [OrientationName(adventurer.orientation)[0]]
    + " - " + NatToString(adventurer.nbTreasures)
  }

  // ---------------------------------------------------------------------------
  // Grouping the treasures

  /** Where the unit `t` is counted in `groups`, or -1 when it is not. */
  function IndexOfTreasure(groups: seq<TreasureCount>, t: Treasure): (k: int)
    ensures -1 <= k < |groups|
    ensures k == -1 <==> forall j :: 0 <= j < |groups| ==> groups[j].treasure != t
    ensures k >= 0 ==> groups[k].treasure == t && forall j :: 0 <= j < k ==> groups[j].treasure != t
    decreases |groups|
  {
    if |groups| == 0 then -1
    else if groups[|groups| - 1].treasure == t && IndexOfTreasure(groups[..|groups| - 1], t) == -1 then
      |groups| - 1
    else
      IndexOfTreasure(groups[..|groups| - 1], t)
  }

  /** Counts one more unit: in its cell's group when there is one, otherwise in
      a new group after all the others. */
  function AddTreasure(groups: seq<TreasureCount>, t: Treasure): (r: seq<TreasureCount>)
    ensures |groups| <= |r| <= |groups| + 1 && |r| > 0
  {
    var k := IndexOfTreasure(groups, t);
    if k == -1 then groups + [TreasureCount(t, 1)]
    else groups[k := groups[k].(count := groups[k].count + 1)]
  }

  /** `GroupBy(treasure => treasure).ToDictionary(key, count)`: one group per
      distinct unit, in order of first occurrence. */
  function GroupTreasures(treasures: seq<Treasure>): (r: seq<TreasureCount>)
    ensures |r| <= |treasures| && (|r| == 0 <==> |treasures| == 0)
    decreases |treasures|
  {
    if |treasures| == 0 then []
    else AddTreasure(GroupTreasures(treasures[..|treasures| - 1]), treasures[|treasures| - 1])
  }

  /** The units a list of groups stands for, group after group. */
  function Expand(groups: seq<TreasureCount>): (r: seq<seq<Treasure>>)
    ensures |r| == |groups| && forall i :: 0 <= i < |r| ==> r[i] == Repeat(groups[i].treasure, groups[i].count)
  {
    seq(|groups|, i requires 0 <= i < |groups| => Repeat(groups[i].treasure, groups[i].count))
  }

  // ---------------------------------------------------------------------------
  // Sections

  function SerializeMapDimension(dimension: Dimension): string {
    DimensionHeader + "\n" + DimensionLine(dimension) + "\n"
  }

  function SerializeMountains(mountains: seq<Mountain>): string {
    if |mountains| == 0 then "" else MountainHeader + "\n" + AggregateLines(mountains, MountainLine)
  }

  function SerializeTreasures(treasures: seq<Treasure>): string {
    if |treasures| == 0 then ""
    else TreasureHeader + "\n" + AggregateLines(GroupTreasures(treasures), TreasureLine)
  }

  function SerializeAdventurers(adventurers: seq<AdventurerState>): string {
    if |adventurers| == 0 then "" else AdventurerHeader + "\n" + AggregateLines(adventurers, AdventurerLine)
  }

  /** The four sections in order, without the final newline. */
  function SerializeMap(w: World): string {
    var serialized := SerializeMapDimension(w.dimension) + SerializeMountains(w.mountains)
                      + SerializeTreasures(w.treasures) + SerializeAdventurers(w.adventurers);
    TrimEndChar(serialized, '\n')
  }

  // ---------------------------------------------------------------------------
  // The lines of the text

  /** A section as lines: nothing when it is empty, its header and then one line
      per entity otherwise. */
  function Section<T>(header: string, s: seq<T>, line: T -> string): (r: seq<string>)
    ensures |s| == 0 ==> r == []
    ensures |s| > 0 ==> |r| == |s| + 1 && r[0] == header && r[1..] == LinesOf(s, line)
  {
    if |s| == 0 then [] else [header] + LinesOf(s, line)
  }

  function MountainSection(mountains: seq<Mountain>): seq<string> {
    Section(MountainHeader, mountains, MountainLine)
  }

  function TreasureSection(treasures: seq<Treasure>): seq<string> {
    Section(TreasureHeader, GroupTreasures(treasures), TreasureLine)
  }

  function AdventurerSection(adventurers: seq<AdventurerState>): seq<string> {
    Section(AdventurerHeader, adventurers, AdventurerLine)
  }

  /** Every line of the serialized map, in order. */
  function SerializedLines(w: World): seq<string> {
    [DimensionHeader, DimensionLine(w.dimension)] + MountainSection(w.mountains)
    + TreasureSection(w.treasures) + AdventurerSection(w.adventurers)
  }
}
