/** The serializer's text read back by the parser, split into lines at '\n'.

    A map without adventurers comes back with the same dimension, the same
    mountains in the same order and the same treasure units, grouped by cell.
    Any text holding a serialized adventurer line is refused: the last field of
    that line is the treasure count, a number, where the parser expects the
    instruction string. */
module MapCodec {
  import opened Results
  import opened Text
  import opened Collections
  import opened Models
  import opened MapParser
  import opened MapSerializer
  import opened MapSerializerProperties
  import opened LineCodec

  // ---------------------------------------------------------------------------
  // Filtering the lines of a serialized map

  /** Lines of one kind from a block: a section keeps its entity lines. */
  lemma FilterSection<T>(header: string, s: seq<T>, line: T -> string, p: string -> bool)
    requires !p(header) && forall i :: 0 <= i < |s| ==> p(line(s[i]))
    ensures Filter(Section(header, s, line), p) == LinesOf(s, line)
  {
    if |s| > 0 {
      FilterConcat([header], LinesOf(s, line), p);
      assert Section(header, s, line) == [header] + LinesOf(s, line);
    }
  }

  /** The data lines of a map without adventurers: its `C` line, then its
      mountain lines, then its treasure lines. */
  function EntryLines(w: World): seq<string> {
    [DimensionLine(w.dimension)] + LinesOf(w.mountains, MountainLine)
    + LinesOf(GroupTreasures(w.treasures), TreasureLine)
  }

  lemma EntityLinesStart(w: World)
    ensures DimensionLine(w.dimension)[0] == 'C'
    ensures forall i :: 0 <= i < |w.mountains| ==> IsOfType(MountainLine(w.mountains[i]), 'M')
    ensures forall g :: IsOfType(TreasureLine(g), 'T')
  {
  }

  /** A serialized line is not blank: it starts with `#` or with its section's letter. */
  lemma SectionLineIsData(line: string)
    requires EndsLine(line) && SectionOf(line) in "CMTA"
    ensures IsData(line)
  {
    assert !IsWhiteSpace(line[0]);
  }

  /** Every serialized line has content, so none is dropped as blank. */
  lemma SerializedLinesAreData(w: World)
    ensures forall i :: 0 <= i < |SerializedLines(w)| ==> IsData(SerializedLines(w)[i])
    ensures RemoveBlankLines(SerializedLines(w)) == SerializedLines(w)
  {
    var lines := SerializedLines(w);
    SerializedLinesEnd(w);
    SectionsInOrder(w);
    forall i | 0 <= i < |lines| ensures IsData(lines[i]) {
      SectionLineIsData(lines[i]);
    }
    assert Filter(lines, IsData) == lines;
  }

  /** A comment, a data line, then two blocks: the second filter keeps the data
      line and what it keeps of each block. */
  lemma EntriesOfBlocks(header: string, first: string, m: seq<string>, t: seq<string>)
    requires IsComment(header) && !IsComment(first)
    ensures Filter([header, first] + m + t, IsEntry) == [first] + Filter(m, IsEntry) + Filter(t, IsEntry)
  {
    var fm, ft := Filter(m, IsEntry), Filter(t, IsEntry);
    assert [header, first] == [header] + [first];
    FilterConcat([header], [first], IsEntry);
    FilterSingle(header, IsEntry);
    FilterSingle(first, IsEntry);
    assert Filter([header, first], IsEntry) == [first];
    FilterConcat([header, first], m, IsEntry);
    FilterConcat([header, first] + m, t, IsEntry);
    assert Filter([header, first] + m + t, IsEntry) == ([first] + fm) + ft;
  }

  /** Only the headers are comments: without adventurers, the second filter
      leaves the `C` line, the mountain lines and the treasure lines. */
  lemma SerializedEntries(w: World)
    requires w.adventurers == []
    ensures RemoveComments(SerializedLines(w)) == EntryLines(w)
  {
    var d := DimensionLine(w.dimension);
    var g := GroupTreasures(w.treasures);
    var m := MountainSection(w.mountains);
    var t := TreasureSection(w.treasures);
    HeadersAreComments();
    EntityLinesStart(w);
    assert SerializedLines(w) == [DimensionHeader, d] + m + t by {
      assert AdventurerSection(w.adventurers) == [];
    }
    FilterSection(MountainHeader, w.mountains, MountainLine, IsEntry);
    FilterSection(TreasureHeader, g, TreasureLine, IsEntry);
    EntriesOfBlocks(DimensionHeader, d, m, t);
  }

  /** The lines of each kind among the data lines. */
  lemma EntryLinesOfType(w: World)
    ensures GetLinesOfType(EntryLines(w), 'M') == LinesOf(w.mountains, MountainLine)
    ensures GetLinesOfType(EntryLines(w), 'T') == LinesOf(GroupTreasures(w.treasures), TreasureLine)
    ensures GetLinesOfType(EntryLines(w), 'A') == []
  {
    var ms := LinesOf(w.mountains, MountainLine);
    var ts := LinesOf(GroupTreasures(w.treasures), TreasureLine);
    EntityLinesStart(w);
    LinesByKind(DimensionLine(w.dimension), ms, ts);
  }

  // ---------------------------------------------------------------------------
  // The whole map, read back

  /** Every unit on the grid, so every group's cell is. */
  lemma GroupsOnGrid(treasures: seq<Treasure>, d: Dimension)
    requires forall i :: 0 <= i < |treasures| ==> InDimension(treasures[i].position, d)
    ensures forall i :: 0 <= i < |GroupTreasures(treasures)| ==> InDimension(GroupTreasures(treasures)[i].treasure.position, d)
  {
    GroupTreasuresGroups(treasures);
  }

  /** A map without adventurers, with a non-negative dimension, its entities on
      the grid and no two mountains on one cell, is read back with the same
      dimension, the same mountains in the same order and the same treasure
      units, grouped by cell in order of first occurrence. */
  lemma RoundTripWithoutAdventurers(w: World)
    requires w.adventurers == []
    requires w.dimension.width >= 0 && w.dimension.height >= 0
    requires forall i :: 0 <= i < |w.mountains| ==> InDimension(w.mountains[i].position, w.dimension)
    requires Distinct(MountainPositions(w.mountains))
    requires forall i :: 0 <= i < |w.treasures| ==> InDimension(w.treasures[i].position, w.dimension)
    ensures var r := ParseMap(Split(SerializeMap(w), '\n'));
      && r.Success?
      && r.value.dimension == w.dimension
      && r.value.mountains == w.mountains
      && r.value.treasures == Flatten(Expand(GroupTreasures(w.treasures)))
      && multiset(r.value.treasures) == multiset(w.treasures)
      && r.value.adventurers == []
  {
    var d := w.dimension;
    var groups := GroupTreasures(w.treasures);
    var lines := SerializedLines(w);
    var entries := EntryLines(w);
    SplitSerializedMap(w);
    SerializedLinesAreData(w);
    SerializedEntries(w);
    ReadData(lines);
    EntryLinesOfType(w);
    DimensionLineRoundTrip(d);
    MountainsRoundTrip(w.mountains, d);
    GroupsOnGrid(w.treasures, d);
    TreasuresRoundTrip(groups, d);
    ReadEntries(entries, d, w.mountains, Flatten(Expand(groups)));
    GroupTreasuresCounts(w.treasures);
  }

  /** A map with adventurers is not read back: the parser refuses its text. */
  lemma AdventurersDoNotRoundTrip(w: World)
    requires |w.adventurers| > 0 && OneLineNames(w.adventurers)
    ensures ParseMap(Split(SerializeMap(w), '\n')).Failure?
  {
    var lines := SerializedLines(w);
    SplitSerializedMap(w);
    var d := [DimensionHeader, DimensionLine(w.dimension)];
    var m := MountainSection(w.mountains);
    var t := TreasureSection(w.treasures);
    var a := AdventurerSection(w.adventurers);
    assert lines == d + m + t + a;
    var i := |d + m + t| + 1;
    assert lines[i] == a[1] == AdventurerLine(w.adventurers[0]);
    AdventurerLineRefusesMap(lines, i, w.adventurers[0]);
  }
}
