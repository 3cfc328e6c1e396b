/** What the parser guarantees: which lines it reads, the order of the checks
    on one line, and the shape of every map it accepts. */
module MapParserProperties {
  import opened Results
  import opened Text
  import opened Collections
  import opened Models
  import opened MapParser
  import opened LineCodec
  import opened TreasureHuntService
  import opened TreasureHuntProperties

  // ---------------------------------------------------------------------------
  // The filters keep the input order and every copy

  /** `Where(line => !string.IsNullOrWhiteSpace(line))`: nothing from nothing, a
      single line kept exactly when it is not blank, and a concatenation
      filtered piece by piece, so the kept lines stay in input order and a line
      written twice is kept twice. */
  lemma RemoveBlankLinesInOrder(a: seq<string>, b: seq<string>, line: string)
    ensures RemoveBlankLines([]) == []
    ensures RemoveBlankLines([line]) == if IsBlank(line) then [] else [line]
    ensures RemoveBlankLines(a + b) == RemoveBlankLines(a) + RemoveBlankLines(b)
  {
    FilterSingle(line, IsData);
    FilterConcat(a, b, IsData);
  }

  /** `Where(line => !line.StartsWith('#'))`, with the same three laws: the
      first line left is the first non-comment line of the input. */
  lemma RemoveCommentsInOrder(a: seq<string>, b: seq<string>, line: string)
    ensures RemoveComments([]) == []
    ensures RemoveComments([line]) == if IsComment(line) then [] else [line]
    ensures RemoveComments(a + b) == RemoveComments(a) + RemoveComments(b)
  {
    FilterSingle(line, IsEntry);
    FilterConcat(a, b, IsEntry);
  }

  /** `Where(l => l[0] == type)`, with the same three laws: the lines of one
      kind in input order, each repeated line as often as it is written. */
  lemma GetLinesOfTypeInOrder(a: seq<string>, b: seq<string>, line: string, kind: char)
    ensures GetLinesOfType([], kind) == []
    ensures GetLinesOfType([line], kind) == if IsOfType(line, kind) then [line] else []
    ensures GetLinesOfType(a + b, kind) == GetLinesOfType(a, kind) + GetLinesOfType(b, kind)
  {
    FilterSingle(line, OfType(kind));
    FilterConcat(a, b, OfType(kind));
  }

  // ---------------------------------------------------------------------------
  // Which lines are read

  /** The text is read only through its non-blank lines. */
  lemma SameData(l1: seq<string>, l2: seq<string>)
    requires RemoveBlankLines(l1) == RemoveBlankLines(l2)
    ensures ParseMap(l1) == ParseMap(l2)
  {
  }

  /** Two texts with data lines and the same lines left by both filters are read
      alike. */
  lemma SameEntries(l1: seq<string>, l2: seq<string>)
    requires |RemoveBlankLines(l1)| > 0 && |RemoveBlankLines(l2)| > 0
    requires RemoveComments(RemoveBlankLines(l1)) == RemoveComments(RemoveBlankLines(l2))
    ensures ParseMap(l1) == ParseMap(l2)
  {
  }

  /** A blank line anywhere makes no difference. */
  lemma BlankLineIgnored(a: seq<string>, c: string, b: seq<string>)
    requires IsBlank(c)
    ensures ParseMap(a + [c] + b) == ParseMap(a + b)
  {
    FilterDrop(a, c, b, IsData);
    SameData(a + [c] + b, a + b);
  }

  /** A comment line anywhere makes no difference, except that a text whose
      only non-blank lines are comments is refused with `IndexOutOfRange`
      (`CreateMap`'s `lines[0]` on an empty array), not `NoData`. */
  lemma CommentLineIgnored(a: seq<string>, c: string, b: seq<string>)
    requires IsComment(c)
    ensures ParseMap(a + [c] + b) ==
            if RemoveBlankLines(a + b) == [] then Failure(IndexOutOfRange) else ParseMap(a + b)
  {
    var ra := RemoveBlankLines(a);
    var rb := RemoveBlankLines(b);
    assert IsData(c) by { assert !IsWhiteSpace(c[0]); }
    FilterKeep(a, c, b, IsData);
    FilterConcat(a, b, IsData);
    FilterDrop(ra, c, rb, IsEntry);
    if RemoveBlankLines(a + b) == [] {
      assert RemoveComments(RemoveBlankLines(a + [c] + b)) == RemoveComments([]);
    } else {
      SameEntries(a + [c] + b, a + b);
    }
  }

  /** A text whose only non-blank lines are comments is refused with
      `IndexOutOfRange`. */
  lemma OnlyCommentsRefused(lines: seq<string>)
    requires exists i :: 0 <= i < |lines| && !IsBlank(lines[i])
    requires forall i :: 0 <= i < |lines| && !IsBlank(lines[i]) ==> IsComment(lines[i])
    ensures ParseMap(lines) == Failure(IndexOutOfRange)
  {
    var data := RemoveBlankLines(lines);
    forall i | 0 <= i < |data| ensures !IsEntry(data[i]) {
      var k :| 0 <= k < |lines| && lines[k] == data[i];
    }
    FilterNone(data, IsEntry);
  }

  /** The reasons one line can be refused for: neither `NoData` nor
      `Overlapping`, which only the whole text can cause. */
  predicate IsLineError(e: InitializationError) {
    !e.NoData? && !e.Overlapping?
  }

  lemma MountainFieldsErrors(data: seq<string>, d: Dimension)
    ensures MountainOfFields(data, d).Failure? ==> IsLineError(MountainOfFields(data, d).error)
  {
  }

  lemma TreasureFieldsErrors(data: seq<string>, d: Dimension)
    ensures TreasureOfFields(data, d).Failure? ==> IsLineError(TreasureOfFields(data, d).error)
  {
  }

  lemma AdventurerFieldsErrors(data: seq<string>, d: Dimension)
    ensures AdventurerOfFields(data, d).Failure? ==> IsLineError(AdventurerOfFields(data, d).error)
  {
  }

  lemma MountainLineErrors(line: string, d: Dimension)
    ensures ParseMountainLine(line, d).Failure? ==> IsLineError(ParseMountainLine(line, d).error)
  {
    if !HasNegativeNumber(line) {
      MountainFieldsErrors(Fields(line), d);
    }
  }

  lemma TreasureLineErrors(line: string, d: Dimension)
    ensures ParseTreasureLine(line, d).Failure? ==> IsLineError(ParseTreasureLine(line, d).error)
  {
    if !HasNegativeNumber(line) {
      TreasureFieldsErrors(Fields(line), d);
    }
  }

  lemma AdventurerLineErrors(line: string, d: Dimension)
    ensures ParseAdventurerLine(line, d).Failure? ==> IsLineError(ParseAdventurerLine(line, d).error)
  {
    if !HasNegativeNumber(line) {
      AdventurerFieldsErrors(Fields(line), d);
    }
  }

  lemma MountainsErrors(lines: seq<string>, d: Dimension)
    ensures MountainsOf(lines, d).Failure? ==> IsLineError(MountainsOf(lines, d).error)
  {
    var r := MountainsOf(lines, d);
    if r.Failure? {
      var i :| 0 <= i < |lines| && MountainParser(d)(lines[i]) == Failure(r.error);
      MountainLineErrors(lines[i], d);
    }
  }

  lemma TreasuresErrors(lines: seq<string>, d: Dimension)
    ensures TreasuresOf(lines, d).Failure? ==> IsLineError(TreasuresOf(lines, d).error)
  {
    var r := TreasureGroupsOf(lines, d);
    if r.Failure? {
      var i :| 0 <= i < |lines| && TreasureParser(d)(lines[i]) == Failure(r.error);
      TreasureLineErrors(lines[i], d);
    }
  }

  lemma AdventurersErrors(lines: seq<string>, d: Dimension)
    ensures AdventurersOf(lines, d).Failure? ==> IsLineError(AdventurersOf(lines, d).error)
  {
    var r := AdventurersOf(lines, d);
    if r.Failure? {
      var i :| 0 <= i < |lines| && AdventurerParser(d)(lines[i]) == Failure(r.error);
      AdventurerLineErrors(lines[i], d);
    }
  }

  /** Once the dimension is read, `NoData` can no longer be the reason. */
  lemma EntitiesNeverNoData(entries: seq<string>, d: Dimension)
    ensures ParseEntities(entries, d) != Failure(NoData)
  {
    MountainsErrors(GetLinesOfType(entries, 'M'), d);
    AdventurersErrors(GetLinesOfType(entries, 'A'), d);
    TreasuresErrors(GetLinesOfType(entries, 'T'), d);
  }

  lemma DimensionFieldsErrors(data: seq<string>)
    ensures DimensionOfFields(data).Failure? ==> IsLineError(DimensionOfFields(data).error)
  {
  }

  lemma DimensionLineErrors(line: string)
    ensures ParseMapDimension(line).Failure? ==> IsLineError(ParseMapDimension(line).error)
  {
    if !HasNegativeNumber(line) {
      DimensionFieldsErrors(Fields(line));
    }
  }

  /** Once there is a line to read the dimension from, `NoData` can no longer be
      the reason. */
  lemma EntriesNeverNoData(entries: seq<string>)
    requires |entries| > 0
    ensures ParseEntries(entries) != Failure(NoData)
  {
    var d := ParseMapDimension(entries[0]);
    DimensionLineErrors(entries[0]);
    if d.Success? {
      EntitiesNeverNoData(entries, d.value);
    }
  }

  /** A text is refused for having no data exactly when every line is blank. */
  lemma NoDataIffBlank(lines: seq<string>)
    ensures ParseMap(lines) == Failure(NoData) <==> forall i :: 0 <= i < |lines| ==> IsBlank(lines[i])
  {
    var data := RemoveBlankLines(lines);
    if |data| > 0 {
      var entries := RemoveComments(data);
      if |entries| > 0 {
        EntriesNeverNoData(entries);
      }
    }
  }

  /** After the dimension line, a line whose first character is not M, T or A
      (a space included) makes no difference. */
  lemma OtherLineIgnored(first: string, a: seq<string>, x: string, b: seq<string>)
    requires !IsOfType(x, 'M') && !IsOfType(x, 'T') && !IsOfType(x, 'A')
    ensures ParseEntries([first] + a + [x] + b) == ParseEntries([first] + a + b)
  {
    var p := [first] + a;
    OtherLineIgnoredOfType(p, x, b, 'M');
    OtherLineIgnoredOfType(p, x, b, 'T');
    OtherLineIgnoredOfType(p, x, b, 'A');
    assert (p + [x] + b)[0] == (p + b)[0] == first;
    SameKinds(p + [x] + b, p + b);
  }

  /** The entries are read only through their first line and their lines of
      each kind. */
  lemma SameKinds(e1: seq<string>, e2: seq<string>)
    requires |e1| > 0 && |e2| > 0 && e1[0] == e2[0]
    requires GetLinesOfType(e1, 'M') == GetLinesOfType(e2, 'M')
    requires GetLinesOfType(e1, 'T') == GetLinesOfType(e2, 'T')
    requires GetLinesOfType(e1, 'A') == GetLinesOfType(e2, 'A')
    ensures ParseEntries(e1) == ParseEntries(e2)
  {
    var d := ParseMapDimension(e1[0]);
    if d.Success? {
      EntitiesOfSameKinds(e1, e2, d.value);
    }
  }

  lemma EntitiesOfSameKinds(e1: seq<string>, e2: seq<string>, d: Dimension)
    requires GetLinesOfType(e1, 'M') == GetLinesOfType(e2, 'M')
    requires GetLinesOfType(e1, 'T') == GetLinesOfType(e2, 'T')
    requires GetLinesOfType(e1, 'A') == GetLinesOfType(e2, 'A')
    ensures ParseEntities(e1, d) == ParseEntities(e2, d)
  {
    var m := MountainsOf(GetLinesOfType(e1, 'M'), d);
    var a := AdventurersOf(GetLinesOfType(e1, 'A'), d);
    if m.Failure? {
      assert ParseEntities(e1, d) == Failure(m.error) == ParseEntities(e2, d);
    } else if a.Failure? {
      assert ParseEntities(e1, d) == Failure(a.error) == ParseEntities(e2, d);
    } else {
      assert ParseEntities(e1, d) == CompleteWorld(e1, d, m.value, a.value);
      assert ParseEntities(e2, d) == CompleteWorld(e2, d, m.value, a.value);
      assert CompleteWorld(e1, d, m.value, a.value) == CompleteWorld(e2, d, m.value, a.value);
    }
  }

  lemma OtherLineIgnoredOfType(p: seq<string>, x: string, b: seq<string>, kind: char)
    requires !IsOfType(x, kind)
    ensures GetLinesOfType(p + [x] + b, kind) == GetLinesOfType(p + b, kind)
  {
    FilterDrop(p, x, b, OfType(kind));
  }

  // ---------------------------------------------------------------------------
  // The checks on one line, in order

  /** The dimension line: negative numbers, then the field count, then the tag,
      then the two numbers. */
  lemma DimensionLineChecks(line: string)
    ensures HasNegativeNumber(line) ==> ParseMapDimension(line) == Failure(NegativeNumber)
    ensures !HasNegativeNumber(line) && Count(line, '-') > 2 ==>
              ParseMapDimension(line) == Failure(TooManyArguments(MapEntity))
    ensures !HasNegativeNumber(line) && Count(line, '-') < 2 ==>
              ParseMapDimension(line) == Failure(NotEnoughArguments(MapEntity))
    ensures !HasNegativeNumber(line) && Count(line, '-') == 2 && Fields(line)[0] != "C" ==>
              ParseMapDimension(line) == Failure(NotMapInitialization)
    ensures ParseMapDimension(line).Success? <==>
              !HasNegativeNumber(line) && Count(line, '-') == 2 && Fields(line)[0] == "C" &&
              ParseInt(Fields(line)[1]).Some? && ParseInt(Fields(line)[2]).Some?
  {
  }

  /** The fields of a mountain line: the count, then the numbers, then the bounds. */
  lemma MountainFieldsChecks(data: seq<string>, d: Dimension)
    ensures |data| > 3 ==> MountainOfFields(data, d) == Failure(TooManyArguments(MountainEntity))
    ensures |data| < 3 ==> MountainOfFields(data, d) == Failure(NotEnoughArguments(MountainEntity))
    ensures |data| == 3 && ParseInt(data[1]).Some? && ParseInt(data[2]).Some? ==>
              var p := Position(ParseInt(data[1]).value, ParseInt(data[2]).value);
              MountainOfFields(data, d) ==
                if InDimension(p, d) then Success(Mountain(p)) else Failure(OutOfBounds(MountainEntity, p.x, p.y))
  {
  }

  /** A mountain line: negative numbers, then the field count, then the
      numbers, then the bounds. */
  lemma MountainLineChecks(line: string, d: Dimension)
    ensures HasNegativeNumber(line) ==> ParseMountainLine(line, d) == Failure(NegativeNumber)
    ensures !HasNegativeNumber(line) && Count(line, '-') > 2 ==>
              ParseMountainLine(line, d) == Failure(TooManyArguments(MountainEntity))
    ensures !HasNegativeNumber(line) && Count(line, '-') < 2 ==>
              ParseMountainLine(line, d) == Failure(NotEnoughArguments(MountainEntity))
    ensures !HasNegativeNumber(line) && Count(line, '-') == 2 &&
            ParseInt(Fields(line)[1]).Some? && ParseInt(Fields(line)[2]).Some? ==>
              var p := Position(ParseInt(Fields(line)[1]).value, ParseInt(Fields(line)[2]).value);
              ParseMountainLine(line, d) ==
                if InDimension(p, d) then Success(Mountain(p)) else Failure(OutOfBounds(MountainEntity, p.x, p.y))
  {
    if !HasNegativeNumber(line) {
      MountainFieldsChecks(Fields(line), d);
    }
  }

  /** The fields of a treasure line: the bounds are checked before the count
      is read. */
  lemma TreasureFieldsChecks(data: seq<string>, d: Dimension)
    ensures |data| > 4 ==> TreasureOfFields(data, d) == Failure(TooManyArguments(TreasureEntity))
    ensures |data| < 4 ==> TreasureOfFields(data, d) == Failure(NotEnoughArguments(TreasureEntity))
    ensures |data| == 4 && ParseInt(data[1]).Some? && ParseInt(data[2]).Some? ==>
              var p := Position(ParseInt(data[1]).value, ParseInt(data[2]).value);
              TreasureOfFields(data, d) ==
                if !InDimension(p, d) then Failure(OutOfBounds(TreasureEntity, p.x, p.y))
                else if ParseInt(data[3]).None? then Failure(NotANumber)
                else Success(Repeat(Treasure(p), ParseInt(data[3]).value))
  {
  }

  /** A treasure line: negative numbers, then the field count, then the
      numbers, then the bounds, and only then the count. */
  lemma TreasureLineChecks(line: string, d: Dimension)
    ensures HasNegativeNumber(line) ==> ParseTreasureLine(line, d) == Failure(NegativeNumber)
    ensures !HasNegativeNumber(line) && Count(line, '-') > 3 ==>
              ParseTreasureLine(line, d) == Failure(TooManyArguments(TreasureEntity))
    ensures !HasNegativeNumber(line) && Count(line, '-') < 3 ==>
              ParseTreasureLine(line, d) == Failure(NotEnoughArguments(TreasureEntity))
    ensures !HasNegativeNumber(line) && Count(line, '-') == 3 &&
            ParseInt(Fields(line)[1]).Some? && ParseInt(Fields(line)[2]).Some? ==>
              var p := Position(ParseInt(Fields(line)[1]).value, ParseInt(Fields(line)[2]).value);
              ParseTreasureLine(line, d) ==
                if !InDimension(p, d) then Failure(OutOfBounds(TreasureEntity, p.x, p.y))
                else if ParseInt(Fields(line)[3]).None? then Failure(NotANumber)
                else Success(Repeat(Treasure(p), ParseInt(Fields(line)[3]).value))
  {
    if !HasNegativeNumber(line) {
      TreasureFieldsChecks(Fields(line), d);
    }
  }

  /** The fields of an adventurer line: after the bounds come the moves, and
      only then the first character of the heading field. */
  lemma AdventurerFieldsChecks(data: seq<string>, d: Dimension)
    ensures |data| > 6 ==> AdventurerOfFields(data, d) == Failure(TooManyArguments(AdventurerEntity))
    ensures |data| < 6 ==> AdventurerOfFields(data, d) == Failure(NotEnoughArguments(AdventurerEntity))
    ensures |data| == 6 && ParseInt(data[2]).Some? && ParseInt(data[3]).Some? ==>
              var p := Position(ParseInt(data[2]).value, ParseInt(data[3]).value);
              AdventurerOfFields(data, d) ==
                if !InDimension(p, d) then Failure(OutOfBounds(AdventurerEntity, p.x, p.y))
                else if InstructionsCheck(data[5]).Failure? then Failure(InstructionsCheck(data[5]).error)
                else if |data[4]| == 0 then Failure(IndexOutOfRange)
                else if data[4][0] !in "NSEW" then Failure(InvalidOrientation(data[4][0]))
                else Success(AdventurerState(data[1], p, ParseOrientation(data[4][0]).value, 0, data[5]))
  {
  }

  /** An adventurer line: negative numbers, then the field count, then the
      numbers, the bounds, the moves and the heading. */
  lemma AdventurerLineChecks(line: string, d: Dimension)
    ensures HasNegativeNumber(line) ==> ParseAdventurerLine(line, d) == Failure(NegativeNumber)
    ensures !HasNegativeNumber(line) && Count(line, '-') > 5 ==>
              ParseAdventurerLine(line, d) == Failure(TooManyArguments(AdventurerEntity))
    ensures !HasNegativeNumber(line) && Count(line, '-') < 5 ==>
              ParseAdventurerLine(line, d) == Failure(NotEnoughArguments(AdventurerEntity))
    ensures !HasNegativeNumber(line) && Count(line, '-') == 5 &&
            ParseInt(Fields(line)[2]).Some? && ParseInt(Fields(line)[3]).Some? ==>
              var f := Fields(line);
              var p := Position(ParseInt(f[2]).value, ParseInt(f[3]).value);
              ParseAdventurerLine(line, d) ==
                if !InDimension(p, d) then Failure(OutOfBounds(AdventurerEntity, p.x, p.y))
                else if InstructionsCheck(f[5]).Failure? then Failure(InstructionsCheck(f[5]).error)
                else if |f[4]| == 0 then Failure(IndexOutOfRange)
                else if f[4][0] !in "NSEW" then Failure(InvalidOrientation(f[4][0]))
                else Success(AdventurerState(f[1], p, ParseOrientation(f[4][0]).value, 0, f[5]))
  {
    if !HasNegativeNumber(line) {
      AdventurerFieldsChecks(Fields(line), d);
    }
  }

  // ---------------------------------------------------------------------------
  // Every accepted map

  /** The cells of the parsed mountains, adventurers and treasures lie on the
      grid as the parser bounds it, no cell holds two of the mountains and
      adventurers, every move is A, G or D and no treasure is collected yet. */
  predicate WellFormed(w: World) {
    && w.dimension.width >= 0 && w.dimension.height >= 0
    && (forall i :: 0 <= i < |w.mountains| ==> InDimension(w.mountains[i].position, w.dimension))
    && (forall i :: 0 <= i < |w.treasures| ==> InDimension(w.treasures[i].position, w.dimension))
    && (forall i :: 0 <= i < |w.adventurers| ==> InDimension(w.adventurers[i].position, w.dimension))
    && Distinct(MountainPositions(w.mountains) + AdventurerPositions(w.adventurers))
    && (forall i :: 0 <= i < |w.adventurers| ==> w.adventurers[i].nbTreasures == 0)
    && (forall i, k :: 0 <= i < |w.adventurers| && 0 <= k < |w.adventurers[i].instructions| ==>
          IsInstruction(w.adventurers[i].instructions[k]))
  }

  lemma MountainsOnGrid(lines: seq<string>, d: Dimension)
    requires MountainsOf(lines, d).Success?
    ensures var m := MountainsOf(lines, d).value;
      |m| == |lines| && forall i :: 0 <= i < |m| ==> InDimension(m[i].position, d)
  {
    MapAllValues(lines, MountainParser(d));
  }

  lemma AdventurersOnGrid(lines: seq<string>, d: Dimension)
    requires AdventurersOf(lines, d).Success?
    ensures var a := AdventurersOf(lines, d).value;
      && |a| == |lines|
      && (forall i :: 0 <= i < |a| ==> InDimension(a[i].position, d) && a[i].nbTreasures == 0)
      && forall i, k :: 0 <= i < |a| && 0 <= k < |a[i].instructions| ==> IsInstruction(a[i].instructions[k])
  {
    MapAllValues(lines, AdventurerParser(d));
  }

  lemma {:induction false} FlattenOnGrid(groups: seq<seq<Treasure>>, d: Dimension)
    requires forall i, k :: 0 <= i < |groups| && 0 <= k < |groups[i]| ==> InDimension(groups[i][k].position, d)
    ensures forall k :: 0 <= k < |Flatten(groups)| ==> InDimension(Flatten(groups)[k].position, d)
    decreases |groups|
  {
    if |groups| > 0 {
      FlattenOnGrid(groups[..|groups| - 1], d);
      var before: seq<Treasure> := Flatten(groups[..|groups| - 1]);
      var last: seq<Treasure> := groups[|groups| - 1];
      assert Flatten(groups) == before + last;
      forall k | 0 <= k < |before + last| ensures InDimension((before + last)[k].position, d) {
        if k >= |before| {
          assert (before + last)[k] == last[k - |before|];
        }
      }
    }
  }

  lemma TreasuresOnGrid(lines: seq<string>, d: Dimension)
    requires TreasuresOf(lines, d).Success?
    ensures forall i :: 0 <= i < |TreasuresOf(lines, d).value| ==> InDimension(TreasuresOf(lines, d).value[i].position, d)
  {
    var groups := TreasureGroupsOf(lines, d).value;
    MapAllValues(lines, TreasureParser(d));
    FlattenOnGrid(groups, d);
  }

  /** The entities read after a non-negative dimension form a well-formed map. */
  lemma EntitiesWellFormed(entries: seq<string>, d: Dimension)
    requires d.width >= 0 && d.height >= 0
    requires ParseEntities(entries, d).Success?
    ensures WellFormed(ParseEntities(entries, d).value)
  {
    var ms := GetLinesOfType(entries, 'M');
    var ts := GetLinesOfType(entries, 'T');
    var advs := GetLinesOfType(entries, 'A');
    MountainsOnGrid(ms, d);
    AdventurersOnGrid(advs, d);
    TreasuresOnGrid(ts, d);
    var w := ParseEntities(entries, d).value;
    assert w == World(d, MountainsOf(ms, d).value, TreasuresOf(ts, d).value, AdventurersOf(advs, d).value);
  }

  /** Every map the parser accepts is well formed. */
  lemma ParsedWorldIsWellFormed(lines: seq<string>)
    requires ParseMap(lines).Success?
    ensures WellFormed(ParseMap(lines).value)
  {
    var entries := RemoveComments(RemoveBlankLines(lines));
    var d := ParseMapDimension(entries[0]);
    assert ParseMap(lines) == ParseEntities(entries, d.value);
    EntitiesWellFormed(entries, d.value);
  }

  /** The strict bounds of the parser lie inside the closed bounds of the
      engine, so every accepted map is one the hunt can start from. */
  lemma ParsedWorldIsPlayable(lines: seq<string>)
    requires ParseMap(lines).Success?
    ensures Playable(ParseMap(lines).value)
  {
    ParsedWorldIsWellFormed(lines);
  }

  /** Two parsed mountains or adventurers on one cell are refused; treasures
      are not involved. */
  lemma OverlapRefused(entries: seq<string>, d: Dimension)
    requires MountainsOf(GetLinesOfType(entries, 'M'), d).Success?
    requires AdventurersOf(GetLinesOfType(entries, 'A'), d).Success?
    ensures var positions := MountainPositions(MountainsOf(GetLinesOfType(entries, 'M'), d).value)
                             + AdventurerPositions(AdventurersOf(GetLinesOfType(entries, 'A'), d).value);
      ParseEntities(entries, d) == Failure(Overlapping) <==> !Distinct(positions)
  {
    TreasuresErrors(GetLinesOfType(entries, 'T'), d);
  }

  /** A treasure line with count n adds n equal units, none for 0. */
  lemma TreasureLineUnits(line: string, d: Dimension)
    requires ParseTreasureLine(line, d).Success?
    ensures var units := ParseTreasureLine(line, d).value;
      && ParseInt(Fields(line)[3]) == Some(|units|)
      && forall i :: 0 <= i < |units| ==>
           units[i] == Treasure(Position(ParseInt(Fields(line)[1]).value, ParseInt(Fields(line)[2]).value))
  {
    TreasureFieldsChecks(Fields(line), d);
  }

  // ---------------------------------------------------------------------------
  // Two bounds

  /** The cells of column `width` and row `height` are on the map for the
      engine but off it for the parser. */
  lemma BoundsDiffer(p: Position, d: Dimension)
    requires 0 <= p.x <= d.width && 0 <= p.y <= d.height
    requires p.x == d.width || p.y == d.height
    ensures !IsNotInMap(p, d)
    ensures VerifyEntityIsInDimension(p, d, AdventurerEntity) == Failure(OutOfBounds(AdventurerEntity, p.x, p.y))
  {
  }
}
