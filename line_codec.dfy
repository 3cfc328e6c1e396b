/** What the parser reads back from one line the serializer writes.

    A `C`, `M` or `T` line of non-negative numbers gives back the dimension,
    the mountain or the units it was written from; an `A` line never parses, as
    its last field is the treasure count where the parser wants the moves, and
    a single such line makes the parser refuse the whole text. */
module LineCodec {
  import opened Results
  import opened Text
  import opened Collections
  import opened Models
  import opened MapParser
  import opened MapSerializer

  // ---------------------------------------------------------------------------
  // Fields joined by " - "

  /** Every '-' is followed by a space, so no negative number can be read. */
  predicate DashesSpaced(s: string) {
    forall i :: 0 <= i < |s| && s[i] == '-' ==> i + 1 < |s| && s[i + 1] == ' '
  }

  lemma SpacedHasNoNegative(s: string)
    requires DashesSpaced(s)
    ensures !HasNegativeNumber(s)
  {
    forall i ensures !NegativeNumberAt(s, i) {
    }
  }

  lemma DashesSpacedConcat(a: string, b: string)
    requires DashesSpaced(a) && DashesSpaced(b) && (|a| == 0 || a[|a| - 1] != '-')
    ensures DashesSpaced(a + b)
  {
    forall i | 0 <= i < |a + b| && (a + b)[i] == '-' ensures i + 1 < |a + b| && (a + b)[i + 1] == ' ' {
      if i >= |a| {
        assert (a + b)[i] == b[i - |a|];
      }
    }
  }

  /** A field as the serializer writes it: trimmed, and without a '-'. */
  predicate PlainField(f: string) {
    IsTrimmed(f) && '-' !in f
  }

  /** A field and the separator after it. */
  lemma FieldThenSeparator(f: string)
    requires '-' !in f
    ensures DashesSpaced(f + " - ")
  {
    var head := f + " - ";
    assert forall i :: 0 <= i < |f| ==> head[i] == f[i];
    assert head[|f|] == ' ' && head[|f| + 1] == '-' && head[|f| + 2] == ' ';
  }

  lemma {:induction false} JoinedDashesSpaced(parts: seq<string>)
    requires forall i :: 0 <= i < |parts| ==> '-' !in parts[i]
    ensures DashesSpaced(Join(parts, " - "))
    decreases |parts|
  {
    if |parts| == 1 {
      assert forall i :: 0 <= i < |parts[0]| ==> parts[0][i] != '-';
    } else if |parts| > 1 {
      var head := parts[0] + " - ";
      var rest := Join(parts[1..], " - ");
      FieldThenSeparator(parts[0]);
      JoinedDashesSpaced(parts[1..]);
      DashesSpacedConcat(head, rest);
      assert Join(parts, " - ") == head + rest;
    }
  }

  lemma TrimFieldsPrepend(x: string, rest: seq<string>)
    ensures TrimFields([x] + rest) == [Trim(x)] + TrimFields(rest)
  {
    SelectPrepend(x, rest, Trim);
  }

  /** The first field of a padded line, and the rest after its separator. */
  lemma FirstFieldPadded(a: string, p: string, rest: string)
    requires IsBlank(a) && '-' !in a && PlainField(p)
    ensures TrimFields(Split(a + (p + " - " + rest), '-')) == [p] + TrimFields(Split(" " + rest, '-'))
  {
    var piece := a + p + " ";
    assert a + (p + " - " + rest) == piece + ['-'] + (" " + rest);
    assert '-' !in piece by {
      assert forall i :: 0 <= i < |piece| ==> piece[i] != '-' by {
        forall i | 0 <= i < |piece| ensures piece[i] != '-' {
          if i < |a| {
            assert piece[i] == a[i];
          } else if i < |a| + |p| {
            assert piece[i] == p[i - |a|];
          }
        }
      }
    }
    assert Split(a + (p + " - " + rest), '-') == [piece] + Split(" " + rest, '-') by {
      SplitConcat(piece, " " + rest, '-');
    }
    assert Trim(piece) == p by {
      TrimPadded(a, p, " ");
      TrimOfTrimmed(p);
    }
    TrimFieldsPrepend(piece, Split(" " + rest, '-'));
  }

  /** A piece without a separator is one field, trimmed. */
  lemma OneField(s: string, p: string)
    requires '-' !in s && Trim(s) == p
    ensures TrimFields(Split(s, '-')) == [p]
  {
    SplitNoSeparator(s, '-');
    assert TrimFields([s])[0] == p;
  }

  /** The last field of a padded line. */
  lemma LastFieldPadded(a: string, p: string)
    requires IsBlank(a) && '-' !in a && PlainField(p)
    ensures TrimFields(Split(a + p, '-')) == [p]
  {
    assert Trim(a + p) == p by {
      TrimPadded(a, p, "");
      assert a + p + "" == a + p;
      TrimOfTrimmed(p);
    }
    OneField(a + p, p);
  }

  /** With a blank, dash-free prefix, the trimmed fields are the parts. */
  lemma {:induction false} PaddedFields(a: string, parts: seq<string>)
    requires IsBlank(a) && '-' !in a
    requires |parts| >= 1 && forall i :: 0 <= i < |parts| ==> PlainField(parts[i])
    ensures TrimFields(Split(a + Join(parts, " - "), '-')) == parts
    decreases |parts|
  {
    var p := parts[0];
    if |parts| == 1 {
      assert Join(parts, " - ") == p;
      LastFieldPadded(a, p);
    } else {
      var tail := parts[1..];
      var rest := Join(tail, " - ");
      assert Join(parts, " - ") == p + " - " + rest;
      FirstFieldPadded(a, p, rest);
      assert TrimFields(Split(" " + rest, '-')) == tail by {
        assert forall i :: 0 <= i < |tail| ==> PlainField(tail[i]) by {
          forall i | 0 <= i < |tail| ensures PlainField(tail[i]) {
            assert tail[i] == parts[i + 1];
          }
        }
        SpaceIsPadding();
        PaddedFields(" ", tail);
      }
      assert parts == [p] + tail;
    }
  }

  lemma SpaceIsPadding()
    ensures IsBlank(" ") && '-' !in " "
  {
  }

  /** A line joined from plain fields by " - " gives the fields back. */
  lemma JoinedFields(parts: seq<string>)
    requires |parts| >= 1 && forall i :: 0 <= i < |parts| ==> PlainField(parts[i])
    ensures RetrieveDataFromLine(Join(parts, " - ")) == Success(parts)
  {
    var line := Join(parts, " - ");
    JoinedDashesSpaced(parts);
    SpacedHasNoNegative(line);
    PaddedFields("", parts);
    assert "" + line == line;
  }

  lemma NumberIsPlain(n: nat)
    ensures PlainField(NatToString(n))
  {
    NatToStringTrimmed(n);
    var s := NatToString(n);
    assert forall k :: 0 <= k < |s| ==> IsDigit(s[k]);
  }

  lemma NumberParses(n: nat)
    ensures ParseNumber(NatToString(n)) == Success(n)
  {
    ParseIntOfNatToString(n);
  }

  lemma Join3(a: string, b: string, c: string, sep: string)
    ensures Join([a, b, c], sep) == a + sep + b + sep + c
  {
    assert [a, b, c][1..] == [b, c];
    assert [b, c][1..] == [c];
    assert Join([b, c], sep) == b + sep + c;
    assert a + sep + (b + sep + c) == a + sep + b + sep + c;
  }

  lemma Join4(a: string, b: string, c: string, d: string, sep: string)
    ensures Join([a, b, c, d], sep) == a + sep + b + sep + c + sep + d
  {
    assert [a, b, c, d][1..] == [b, c, d];
    Join3(b, c, d, sep);
    assert a + sep + (b + sep + c + sep + d) == a + sep + b + sep + c + sep + d;
  }

  // ---------------------------------------------------------------------------
  // One line, read back

  lemma DimensionLineJoined(d: Dimension)
    requires d.width >= 0 && d.height >= 0
    ensures DimensionLine(d) == Join(["C", NatToString(d.width), NatToString(d.height)], " - ")
  {
    var w, h := NatToString(d.width), NatToString(d.height);
    assert IntToString(d.width) == w && IntToString(d.height) == h;
    assert "C - " == "C" + " - ";
    Join3("C", w, h, " - ");
  }

  /** The `C` line of a non-negative dimension gives the dimension back. */
  lemma DimensionLineRoundTrip(d: Dimension)
    requires d.width >= 0 && d.height >= 0
    ensures ParseMapDimension(DimensionLine(d)) == Success(d)
  {
    var w := NatToString(d.width);
    var h := NatToString(d.height);
    var fields := ["C", w, h];
    NumberIsPlain(d.width);
    NumberIsPlain(d.height);
    NumberParses(d.width);
    NumberParses(d.height);
    assert PlainField("C");
    DimensionLineJoined(d);
    JoinedFields(fields);
  }

  lemma MountainLineJoined(m: Mountain)
    requires m.position.x >= 0 && m.position.y >= 0
    ensures MountainLine(m) == Join(["M", NatToString(m.position.x), NatToString(m.position.y)], " - ")
  {
    var x, y := NatToString(m.position.x), NatToString(m.position.y);
    assert IntToString(m.position.x) == x && IntToString(m.position.y) == y;
    assert "M - " == "M" + " - ";
    Join3("M", x, y, " - ");
  }

  /** A mountain line gives the mountain back when it lies on the grid. */
  lemma MountainLineRoundTrip(m: Mountain, d: Dimension)
    requires InDimension(m.position, d)
    ensures ParseMountainLine(MountainLine(m), d) == Success(m)
  {
    var x := NatToString(m.position.x);
    var y := NatToString(m.position.y);
    var fields := ["M", x, y];
    NumberIsPlain(m.position.x);
    NumberIsPlain(m.position.y);
    NumberParses(m.position.x);
    NumberParses(m.position.y);
    assert PlainField("M");
    MountainLineJoined(m);
    JoinedFields(fields);
  }

  lemma TreasureLineJoined(g: TreasureCount)
    requires g.treasure.position.x >= 0 && g.treasure.position.y >= 0
    ensures TreasureLine(g) == Join(["T", NatToString(g.treasure.position.x), NatToString(g.treasure.position.y),
                                     NatToString(g.count)], " - ")
  {
    var x, y := NatToString(g.treasure.position.x), NatToString(g.treasure.position.y);
    assert IntToString(g.treasure.position.x) == x && IntToString(g.treasure.position.y) == y;
    assert "T - " == "T" + " - ";
    Join4("T", x, y, NatToString(g.count), " - ");
  }

  /** A treasure line gives its count of units back when its cell lies on the grid. */
  lemma TreasureLineRoundTrip(g: TreasureCount, d: Dimension)
    requires InDimension(g.treasure.position, d)
    ensures ParseTreasureLine(TreasureLine(g), d) == Success(Repeat(g.treasure, g.count))
  {
    var x := NatToString(g.treasure.position.x);
    var y := NatToString(g.treasure.position.y);
    var n := NatToString(g.count);
    var fields := ["T", x, y, n];
    NumberIsPlain(g.treasure.position.x);
    NumberIsPlain(g.treasure.position.y);
    NumberIsPlain(g.count);
    NumberParses(g.treasure.position.x);
    NumberParses(g.treasure.position.y);
    NumberParses(g.count);
    assert PlainField("T");
    TreasureLineJoined(g);
    JoinedFields(fields);
  }

  /** The last piece of a split is what follows the last separator. */
  lemma {:induction false} SplitLastPiece(a: string, b: string, sep: char)
    requires sep !in b
    ensures var r := Split(a + [sep] + b, sep); |r| >= 2 && r[|r| - 1] == b
    decreases |a|
  {
    var s := a + [sep] + b;
    if |a| == 0 {
      assert s == [sep] + b;
      assert s[1..] == b;
      SplitNoSeparator(b, sep);
    } else {
      assert s[1..] == a[1..] + [sep] + b;
      SplitLastPiece(a[1..], b, sep);
    }
  }

  /** Everything of an adventurer line before its last separator. */
  function AdventurerLineHead(a: AdventurerState): string {
    "A - " + a.name + " - " + IntToString(a.position.x) + " - " + IntToString(a.position.y)
    + " - " + [OrientationName(a.orientation)[0]] + " "
  }

  lemma AdventurerLineEnd(a: AdventurerState)
    ensures AdventurerLine(a) == AdventurerLineHead(a) + ['-'] + (" " + NatToString(a.nbTreasures))
  {
  }

  /** The field after a line's last '-'. */
  function FinalField(line: string): string {
    var f := Fields(line);
    if |f| == 0 then "" else f[|f| - 1]
  }

  /** The field after a line's last separator. */
  lemma LastField(head: string, f: string)
    requires PlainField(f)
    ensures FinalField(head + ['-'] + (" " + f)) == f
  {
    var tail := " " + f;
    var parts := Split(head + ['-'] + tail, '-');
    assert |parts| >= 1 && parts[|parts| - 1] == tail by {
      assert '-' !in tail;
      SplitLastPiece(head, tail, '-');
    }
    assert Trim(tail) == f by {
      TrimPadded(" ", f, "");
      assert " " + f + "" == tail;
      TrimOfTrimmed(f);
    }
    var fields := Fields(head + ['-'] + tail);
    assert fields == TrimFields(parts);
    assert fields[|fields| - 1] == Trim(tail);
  }

  /** The last field of an adventurer line is its treasure count. */
  lemma AdventurerLastField(a: AdventurerState)
    ensures FinalField(AdventurerLine(a)) == NatToString(a.nbTreasures)
  {
    AdventurerLineEnd(a);
    NumberIsPlain(a.nbTreasures);
    LastField(AdventurerLineHead(a), NatToString(a.nbTreasures));
  }

  /** What a parsed adventurer line promises about the line: six fields, the
      last one all moves. */
  predicate AdventurerLinePromise(line: string, r: Result<AdventurerState>) {
    r.Success? ==> Count(line, '-') == 5 && r.value.instructions == Fields(line)[5]
                   && forall i :: 0 <= i < |r.value.instructions| ==> IsInstruction(r.value.instructions[i])
  }

  lemma DigitBreaksPromise(line: string, r: Result<AdventurerState>)
    requires AdventurerLinePromise(line, r)
    requires |FinalField(line)| > 0 && IsDigit(FinalField(line)[0])
    ensures r.Failure?
  {
    assert |Fields(line)| == 6 ==> FinalField(line) == Fields(line)[5];
  }

  /** A line whose last field starts with a digit is not an adventurer. */
  lemma DigitLastFieldRefused(line: string, d: Dimension)
    requires |FinalField(line)| > 0 && IsDigit(FinalField(line)[0])
    ensures ParseAdventurerLine(line, d).Failure?
  {
    DigitBreaksPromise(line, ParseAdventurerLine(line, d));
  }

  /** An adventurer line is always refused: its last field is the treasure
      count, all digits, where the instructions should be. */
  lemma AdventurerLineRefused(a: AdventurerState, d: Dimension)
    ensures ParseAdventurerLine(AdventurerLine(a), d).Failure?
  {
    AdventurerLastField(a);
    DigitLastFieldRefused(AdventurerLine(a), d);
  }

  // ---------------------------------------------------------------------------
  // All lines of one kind, read back

  lemma MountainsRoundTrip(mountains: seq<Mountain>, d: Dimension)
    requires forall i :: 0 <= i < |mountains| ==> InDimension(mountains[i].position, d)
    ensures MountainsOf(LinesOf(mountains, MountainLine), d) == Success(mountains)
  {
    var lines := LinesOf(mountains, MountainLine);
    forall j | 0 <= j < |lines| ensures MountainParser(d)(lines[j]) == Success(mountains[j]) {
      MountainLineRoundTrip(mountains[j], d);
    }
    MapAllSuccess(lines, MountainParser(d), mountains);
  }

  /** Treasure groups on the grid come back as their units, group after group. */
  lemma TreasuresRoundTrip(groups: seq<TreasureCount>, d: Dimension)
    requires forall i :: 0 <= i < |groups| ==> InDimension(groups[i].treasure.position, d)
    ensures TreasuresOf(LinesOf(groups, TreasureLine), d) == Success(Flatten(Expand(groups)))
  {
    var lines := LinesOf(groups, TreasureLine);
    forall j | 0 <= j < |lines| ensures TreasureParser(d)(lines[j]) == Success(Expand(groups)[j]) {
      TreasureLineRoundTrip(groups[j], d);
    }
    MapAllSuccess(lines, TreasureParser(d), Expand(groups));
  }

  // ---------------------------------------------------------------------------
  // Reading a text made of known lines

  /** A filter that keeps every line of a block gives the block back. */
  lemma FilterAll(s: seq<string>, p: string -> bool)
    requires forall i :: 0 <= i < |s| ==> p(s[i])
    ensures Filter(s, p) == s
  {
  }

  /** A filter that drops a line and keeps `kb` of one block and `kc` of the
      next keeps `kb + kc` of the three. */
  lemma FilterLineAndBlocks(first: string, b: seq<string>, c: seq<string>, p: string -> bool, kb: seq<string>, kc: seq<string>)
    requires Filter([first], p) == [] && Filter(b, p) == kb && Filter(c, p) == kc
    ensures Filter([first] + b + c, p) == kb + kc
  {
    FilterConcat([first], b, p);
    FilterConcat([first] + b, c, p);
    assert [] + kb == kb;
  }

  /** A `C` line, then `M` lines, then `T` lines: each kind is found apart. */
  lemma LinesByKind(first: string, ms: seq<string>, ts: seq<string>)
    requires IsOfType(first, 'C')
    requires forall i :: 0 <= i < |ms| ==> IsOfType(ms[i], 'M')
    requires forall i :: 0 <= i < |ts| ==> IsOfType(ts[i], 'T')
    ensures GetLinesOfType([first] + ms + ts, 'M') == ms
    ensures GetLinesOfType([first] + ms + ts, 'T') == ts
    ensures GetLinesOfType([first] + ms + ts, 'A') == []
  {
    MountainLinesApart(first, ms, ts);
    TreasureLinesApart(first, ms, ts);
    NoAdventurerLines(first, ms, ts);
  }

  lemma MountainLinesApart(first: string, ms: seq<string>, ts: seq<string>)
    requires IsOfType(first, 'C')
    requires forall i :: 0 <= i < |ms| ==> IsOfType(ms[i], 'M')
    requires forall i :: 0 <= i < |ts| ==> IsOfType(ts[i], 'T')
    ensures Filter([first] + ms + ts, OfType('M')) == ms
  {
    var p := OfType('M');
    assert Filter([first], p) == [] by { FilterSingle(first, p); }
    assert Filter(ms, p) == ms by { FilterAll(ms, p); }
    assert Filter(ts, p) == [] by { FilterNone(ts, p); }
    FilterLineAndBlocks(first, ms, ts, p, ms, []);
    assert ms + [] == ms;
  }

  lemma TreasureLinesApart(first: string, ms: seq<string>, ts: seq<string>)
    requires IsOfType(first, 'C')
    requires forall i :: 0 <= i < |ms| ==> IsOfType(ms[i], 'M')
    requires forall i :: 0 <= i < |ts| ==> IsOfType(ts[i], 'T')
    ensures Filter([first] + ms + ts, OfType('T')) == ts
  {
    var p := OfType('T');
    assert Filter([first], p) == [] by { FilterSingle(first, p); }
    assert Filter(ms, p) == [] by { FilterNone(ms, p); }
    assert Filter(ts, p) == ts by { FilterAll(ts, p); }
    FilterLineAndBlocks(first, ms, ts, p, [], ts);
    assert [] + ts == ts;
  }

  lemma NoAdventurerLines(first: string, ms: seq<string>, ts: seq<string>)
    requires IsOfType(first, 'C')
    requires forall i :: 0 <= i < |ms| ==> IsOfType(ms[i], 'M')
    requires forall i :: 0 <= i < |ts| ==> IsOfType(ts[i], 'T')
    ensures Filter([first] + ms + ts, OfType('A')) == []
  {
    var p := OfType('A');
    assert Filter([first], p) == [] by { FilterSingle(first, p); }
    assert Filter(ms, p) == [] by { FilterNone(ms, p); }
    assert Filter(ts, p) == [] by { FilterNone(ts, p); }
    FilterLineAndBlocks(first, ms, ts, p, [], []);
  }

  /** Lines that all hold data reach the entity parsers as their non-comment lines. */
  lemma ReadData(lines: seq<string>)
    requires forall i :: 0 <= i < |lines| ==> IsData(lines[i])
    requires |RemoveComments(lines)| > 0
    ensures ParseMap(lines) == ParseEntries(RemoveComments(lines))
  {
    assert RemoveBlankLines(lines) == lines;
  }

  lemma CompleteWithoutAdventurers(entries: seq<string>, d: Dimension, mountains: seq<Mountain>, treasures: seq<Treasure>)
    requires Distinct(MountainPositions(mountains))
    requires TreasuresOf(GetLinesOfType(entries, 'T'), d) == Success(treasures)
    ensures CompleteWorld(entries, d, mountains, []) == Success(World(d, mountains, treasures, []))
  {
    assert MountainPositions(mountains) + AdventurerPositions([]) == MountainPositions(mountains);
  }

  lemma EntitiesWithoutAdventurers(entries: seq<string>, d: Dimension, mountains: seq<Mountain>, treasures: seq<Treasure>)
    requires MountainsOf(GetLinesOfType(entries, 'M'), d) == Success(mountains)
    requires GetLinesOfType(entries, 'A') == []
    requires Distinct(MountainPositions(mountains))
    requires TreasuresOf(GetLinesOfType(entries, 'T'), d) == Success(treasures)
    ensures ParseEntities(entries, d) == Success(World(d, mountains, treasures, []))
  {
    assert AdventurersOf([], d) == Success([]);
    CompleteWithoutAdventurers(entries, d, mountains, treasures);
  }

  /** Entries whose parts all parse, with no adventurer and no two mountains on
      one cell, give the world of those parts. */
  lemma ReadEntries(entries: seq<string>, d: Dimension, mountains: seq<Mountain>, treasures: seq<Treasure>)
    requires |entries| > 0 && ParseMapDimension(entries[0]) == Success(d)
    requires MountainsOf(GetLinesOfType(entries, 'M'), d) == Success(mountains)
    requires GetLinesOfType(entries, 'A') == []
    requires Distinct(MountainPositions(mountains))
    requires TreasuresOf(GetLinesOfType(entries, 'T'), d) == Success(treasures)
    ensures ParseEntries(entries) == Success(World(d, mountains, treasures, []))
  {
    EntitiesWithoutAdventurers(entries, d, mountains, treasures);
  }

  // ---------------------------------------------------------------------------
  // Refusing a text

  /** One data line that is not a comment is enough for the parser to go past
      both filters. */
  lemma EntriesOfLines(lines: seq<string>, i: int)
    requires 0 <= i < |lines| && IsData(lines[i]) && IsEntry(lines[i])
    ensures var entries := RemoveComments(RemoveBlankLines(lines));
      lines[i] in entries && ParseMap(lines) == ParseEntries(entries)
  {
    var data := RemoveBlankLines(lines);
    assert lines[i] in data;
    var k :| 0 <= k < |data| && data[k] == lines[i];
    var entries := RemoveComments(data);
    assert lines[i] in entries;
  }

  /** A refused adventurer line refuses the entities, whatever the dimension. */
  lemma EntitiesRefused(entries: seq<string>, dimension: Dimension)
    requires AdventurersOf(GetLinesOfType(entries, 'A'), dimension).Failure?
    ensures ParseEntities(entries, dimension).Failure?
  {
  }

  lemma EntriesRefused(entries: seq<string>)
    requires |entries| > 0
    requires forall dimension :: AdventurersOf(GetLinesOfType(entries, 'A'), dimension).Failure?
    ensures ParseEntries(entries).Failure?
  {
    var dimension := ParseMapDimension(entries[0]);
    if dimension.Success? {
      EntitiesRefused(entries, dimension.value);
    }
  }

  /** A line starting with 'A' that no dimension lets through refuses the text. */
  lemma RefusedLineRefusesMap(lines: seq<string>, i: int)
    requires 0 <= i < |lines| && IsOfType(lines[i], 'A')
    requires forall dimension :: ParseAdventurerLine(lines[i], dimension).Failure?
    ensures ParseMap(lines).Failure?
  {
    var line := lines[i];
    assert IsData(line) by {
      assert !IsWhiteSpace(line[0]);
    }
    EntriesOfLines(lines, i);
    var entries := RemoveComments(RemoveBlankLines(lines));
    var k :| 0 <= k < |entries| && entries[k] == line;
    var ofType := GetLinesOfType(entries, 'A');
    assert line in ofType;
    var j :| 0 <= j < |ofType| && ofType[j] == line;
    forall dimension ensures AdventurersOf(ofType, dimension).Failure? {
      assert AdventurerParser(dimension)(ofType[j]).Failure?;
    }
    EntriesRefused(entries);
  }

  /** Whatever else a text holds, a serialized adventurer line in it makes the
      parser refuse it. */
  lemma AdventurerLineRefusesMap(lines: seq<string>, i: int, a: AdventurerState)
    requires 0 <= i < |lines| && lines[i] == AdventurerLine(a)
    ensures ParseMap(lines).Failure?
  {
    forall dimension ensures ParseAdventurerLine(lines[i], dimension).Failure? {
      AdventurerLineRefused(a, dimension);
    }
    AdventurerLineStart(a);
    RefusedLineRefusesMap(lines, i);
  }

  lemma AdventurerLineStart(a: AdventurerState)
    ensures IsOfType(AdventurerLine(a), 'A')
  {
  }

}
