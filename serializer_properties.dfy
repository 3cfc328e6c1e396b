/** What the serialized text of a map is: its lines joined by newlines, with
    the sections in the order C, M, T, A, an empty section left out, and one
    treasure line per occupied cell carrying the number of units there. */
module MapSerializerProperties {
  import opened Text
  import opened Collections
  import opened Models
  import opened MapSerializer

  // ---------------------------------------------------------------------------
  // Lines and text

  lemma {:induction false} UnlinesAppend(lines: seq<string>, last: string)
    ensures Unlines(lines + [last]) == Unlines(lines) + last + "\n"
    decreases |lines|
  {
    if |lines| == 0 {
      assert lines + [last] == [last];
      assert [last][1..] == [];
    } else {
      assert (lines + [last])[1..] == lines[1..] + [last];
      UnlinesAppend(lines[1..], last);
    }
  }

  lemma {:induction false} UnlinesConcat(a: seq<string>, b: seq<string>)
    ensures Unlines(a + b) == Unlines(a) + Unlines(b)
    decreases |a|
  {
    if |a| == 0 {
      assert a + b == b;
    } else {
      assert (a + b)[1..] == a[1..] + b;
      UnlinesConcat(a[1..], b);
    }
  }

  /** The left fold writes the same text as the list of lines it stands for. */
  lemma {:induction false} AggregateLinesUnlines<T>(s: seq<T>, line: T -> string)
    ensures AggregateLines(s, line) == Unlines(LinesOf(s, line))
    decreases |s|
  {
    if |s| > 0 {
      var n := |s| - 1;
      AggregateLinesUnlines(s[..n], line);
      assert LinesOf(s, line) == LinesOf(s[..n], line) + [line(s[n])];
      UnlinesAppend(LinesOf(s[..n], line), line(s[n]));
    }
  }

  lemma {:induction false} UnlinesJoin(lines: seq<string>)
    requires |lines| >= 1
    ensures Unlines(lines) == Join(lines, "\n") + "\n"
    decreases |lines|
  {
    if |lines| == 1 {
      assert lines[1..] == [];
    } else {
      UnlinesJoin(lines[1..]);
    }
  }

  /** A joined text ends with its last part. */
  lemma {:induction false} JoinEndsWithLast(parts: seq<string>, sep: string)
    requires |parts| >= 1
    ensures var j := Join(parts, sep); |j| >= |parts[|parts| - 1]| && j[|j| - |parts[|parts| - 1]|..] == parts[|parts| - 1]
    decreases |parts|
  {
    if |parts| > 1 {
      JoinEndsWithLast(parts[1..], sep);
    }
  }

  /** A joined text starts with its first part. */
  lemma {:induction false} JoinStartsWithFirst(parts: seq<string>, sep: string)
    requires |parts| >= 1
    ensures var j := Join(parts, sep); |j| >= |parts[0]| && j[..|parts[0]|] == parts[0]
  {
  }

  /** The text of one section is the text of its lines. */
  lemma SectionText<T>(header: string, s: seq<T>, line: T -> string)
    requires |s| > 0
    ensures header + "\n" + AggregateLines(s, line) == Unlines(Section(header, s, line))
  {
    AggregateLinesUnlines(s, line);
    var r := Section(header, s, line);
    assert r == [header] + LinesOf(s, line);
  }

  lemma MountainsText(mountains: seq<Mountain>)
    ensures SerializeMountains(mountains) == Unlines(MountainSection(mountains))
  {
    if |mountains| > 0 {
      SectionText(MountainHeader, mountains, MountainLine);
    }
  }

  lemma TreasuresText(treasures: seq<Treasure>)
    ensures SerializeTreasures(treasures) == Unlines(TreasureSection(treasures))
  {
    if |treasures| > 0 {
      SectionText(TreasureHeader, GroupTreasures(treasures), TreasureLine);
    }
  }

  lemma AdventurersText(adventurers: seq<AdventurerState>)
    ensures SerializeAdventurers(adventurers) == Unlines(AdventurerSection(adventurers))
  {
    if |adventurers| > 0 {
      SectionText(AdventurerHeader, adventurers, AdventurerLine);
    }
  }

  lemma UnlinesPair(a: string, b: string)
    ensures Unlines([a, b]) == a + "\n" + b + "\n"
  {
    var d := [a, b];
    assert d[1..] == [b];
    assert d[1..][1..] == [];
    assert Unlines([b]) == b + "\n";
  }

  lemma DimensionText(dimension: Dimension)
    ensures SerializeMapDimension(dimension) == Unlines([DimensionHeader, DimensionLine(dimension)])
  {
    UnlinesPair(DimensionHeader, DimensionLine(dimension));
  }

  /** Before the final trim, the text is every line followed by a newline. */
  lemma SerializeMapUnlines(w: World)
    ensures SerializeMap(w) == TrimEndChar(Unlines(SerializedLines(w)), '\n')
  {
    var d := [DimensionHeader, DimensionLine(w.dimension)];
    var m := MountainSection(w.mountains);
    var t := TreasureSection(w.treasures);
    var a := AdventurerSection(w.adventurers);
    DimensionText(w.dimension);
    MountainsText(w.mountains);
    TreasuresText(w.treasures);
    AdventurersText(w.adventurers);
    UnlinesConcat(d, m);
    UnlinesConcat(d + m, t);
    UnlinesConcat(d + m + t, a);
  }

  // ---------------------------------------------------------------------------
  // What every line looks like

  /** Not empty, and not ending with a newline. */
  predicate EndsLine(line: string) {
    |line| > 0 && line[|line| - 1] != '\n'
  }

  /** A line of text: not empty and without a newline. */
  predicate IsLine(line: string) {
    |line| > 0 && '\n' !in line
  }

  /** No adventurer's name spans two lines. */
  predicate OneLineNames(adventurers: seq<AdventurerState>) {
    forall i :: 0 <= i < |adventurers| ==> '\n' !in adventurers[i].name
  }

  lemma NumberIsOneLine(i: int)
    ensures '\n' !in IntToString(i) && '\n' !in NatToString(if i < 0 then 0 else i)
  {
    var s := IntToString(i);
    assert forall k :: 0 <= k < |s| ==> s[k] != '\n';
    var n := NatToString(if i < 0 then 0 else i);
    assert forall k :: 0 <= k < |n| ==> n[k] != '\n';
  }

  lemma HeadersAreLines()
    ensures EndsLine(DimensionHeader) && EndsLine(MountainHeader)
    ensures EndsLine(TreasureHeader) && EndsLine(AdventurerHeader)
    ensures IsLine(DimensionHeader) && IsLine(MountainHeader)
    ensures IsLine(TreasureHeader) && IsLine(AdventurerHeader)
  {
    HeadersAreComments();
  }

  lemma DimensionLineIsLine(d: Dimension)
    ensures IsLine(DimensionLine(d)) && EndsLine(DimensionLine(d))
  {
    NumberIsOneLine(d.width);
    NumberIsOneLine(d.height);
  }

  lemma MountainLineIsLine(m: Mountain)
    ensures IsLine(MountainLine(m)) && EndsLine(MountainLine(m))
  {
    NumberIsOneLine(m.position.x);
    NumberIsOneLine(m.position.y);
  }

  lemma TreasureLineIsLine(g: TreasureCount)
    ensures IsLine(TreasureLine(g)) && EndsLine(TreasureLine(g))
  {
    NumberIsOneLine(g.treasure.position.x);
    NumberIsOneLine(g.treasure.position.y);
    NumberIsOneLine(g.count);
  }

  /** An adventurer's line ends with its treasure count, whatever its name; it
      is one line when the name is. */
  lemma AdventurerLineIsLine(a: AdventurerState)
    ensures EndsLine(AdventurerLine(a))
    ensures '\n' !in a.name ==> IsLine(AdventurerLine(a))
  {
    NumberIsOneLine(a.position.x);
    NumberIsOneLine(a.position.y);
    NumberIsOneLine(a.nbTreasures);
    var n := NatToString(a.nbTreasures);
    assert IsDigit(n[|n| - 1]);
    var o := OrientationName(a.orientation)[0];
    assert o != '\n';
  }

  predicate AllEnd(lines: seq<string>) {
    forall i :: 0 <= i < |lines| ==> EndsLine(lines[i])
  }

  predicate AllLines(lines: seq<string>) {
    forall i :: 0 <= i < |lines| ==> IsLine(lines[i])
  }

  lemma ConcatEnd(a: seq<string>, b: seq<string>)
    requires AllEnd(a) && AllEnd(b)
    ensures AllEnd(a + b)
  {
    forall i | 0 <= i < |a + b| ensures EndsLine((a + b)[i]) {
      if i >= |a| {
        assert (a + b)[i] == b[i - |a|];
      }
    }
  }

  lemma ConcatLines(a: seq<string>, b: seq<string>)
    requires AllLines(a) && AllLines(b)
    ensures AllLines(a + b)
  {
    forall i | 0 <= i < |a + b| ensures IsLine((a + b)[i]) {
      if i >= |a| {
        assert (a + b)[i] == b[i - |a|];
      }
    }
  }

  lemma MountainSectionLines(mountains: seq<Mountain>)
    ensures AllEnd(MountainSection(mountains)) && AllLines(MountainSection(mountains))
  {
    var r := MountainSection(mountains);
    if |mountains| > 0 {
      HeadersAreLines();
      forall i | 0 <= i < |r| ensures IsLine(r[i]) && EndsLine(r[i]) {
        if i > 0 {
          assert r[i] == r[1..][i - 1] == MountainLine(mountains[i - 1]);
          MountainLineIsLine(mountains[i - 1]);
        }
      }
    }
  }

  lemma TreasureSectionLines(treasures: seq<Treasure>)
    ensures AllEnd(TreasureSection(treasures)) && AllLines(TreasureSection(treasures))
  {
    var r := TreasureSection(treasures);
    var g := GroupTreasures(treasures);
    if |treasures| > 0 {
      HeadersAreLines();
      forall i | 0 <= i < |r| ensures IsLine(r[i]) && EndsLine(r[i]) {
        if i > 0 {
          assert r[i] == r[1..][i - 1] == TreasureLine(g[i - 1]);
          TreasureLineIsLine(g[i - 1]);
        }
      }
    }
  }

  lemma AdventurerSectionLines(adventurers: seq<AdventurerState>)
    ensures AllEnd(AdventurerSection(adventurers))
    ensures OneLineNames(adventurers) ==> AllLines(AdventurerSection(adventurers))
  {
    var r := AdventurerSection(adventurers);
    if |adventurers| > 0 {
      HeadersAreLines();
      forall i | 0 <= i < |r|
        ensures EndsLine(r[i])
        ensures OneLineNames(adventurers) ==> IsLine(r[i])
      {
        if i > 0 {
          assert r[i] == r[1..][i - 1] == AdventurerLine(adventurers[i - 1]);
          AdventurerLineIsLine(adventurers[i - 1]);
        }
      }
    }
  }

  lemma SerializedLinesEnd(w: World)
    ensures AllEnd(SerializedLines(w))
    ensures OneLineNames(w.adventurers) ==> AllLines(SerializedLines(w))
  {
    var d := [DimensionHeader, DimensionLine(w.dimension)];
    var m := MountainSection(w.mountains);
    var t := TreasureSection(w.treasures);
    var a := AdventurerSection(w.adventurers);
    assert AllEnd(d) && AllLines(d) by {
      HeadersAreLines();
      DimensionLineIsLine(w.dimension);
    }
    MountainSectionLines(w.mountains);
    TreasureSectionLines(w.treasures);
    AdventurerSectionLines(w.adventurers);
    assert SerializedLines(w) == d + m + t + a;
    ConcatEnd(d, m);
    ConcatEnd(d + m, t);
    ConcatEnd(d + m + t, a);
    if OneLineNames(w.adventurers) {
      ConcatLines(d, m);
      ConcatLines(d + m, t);
      ConcatLines(d + m + t, a);
    }
  }

  // ---------------------------------------------------------------------------
  // The text

  /** The text is its lines joined by newlines: no newline after the last one. */
  lemma SerializeMapIsJoinedLines(w: World)
    ensures SerializeMap(w) == Join(SerializedLines(w), "\n")
  {
    var lines := SerializedLines(w);
    var j := Join(lines, "\n");
    SerializeMapUnlines(w);
    UnlinesJoin(lines);
    SerializedLinesEnd(w);
    JoinEndsWithLast(lines, "\n");
    var last := lines[|lines| - 1];
    assert EndsLine(last);
    assert j[|j| - 1] == last[|last| - 1];
    assert (j + "\n")[..|j|] == j;
  }

  /** Read back line by line, the text gives exactly its lines. */
  lemma SplitSerializedMap(w: World)
    requires OneLineNames(w.adventurers)
    ensures Split(SerializeMap(w), '\n') == SerializedLines(w)
  {
    SerializeMapIsJoinedLines(w);
    SerializedLinesEnd(w);
    SplitJoin(SerializedLines(w), '\n');
  }

  /** A text joined from two parts or more starts with the first two. */
  lemma JoinStartsWithTwo(parts: seq<string>, sep: string, first: string, second: string)
    requires |parts| >= 2 && parts[0] == first && parts[1] == second
    ensures var prefix := first + sep + second; var j := Join(parts, sep);
      |j| >= |prefix| && j[..|prefix|] == prefix
  {
    JoinStartsWithFirst(parts[1..], sep);
    var j := Join(parts, sep);
    assert j == parts[0] + sep + Join(parts[1..], sep);
  }

  /** The first two lines are the dimension header and the `C` line. */
  lemma SerializedLinesStart(w: World)
    ensures |SerializedLines(w)| >= 2
    ensures SerializedLines(w)[0] == DimensionHeader && SerializedLines(w)[1] == DimensionLine(w.dimension)
  {
  }

  /** The text opens with the dimension header and the `C` line. */
  lemma SerializeMapStartsWithDimension(w: World)
    ensures var prefix := DimensionHeader + "\n" + DimensionLine(w.dimension);
      |SerializeMap(w)| >= |prefix| && SerializeMap(w)[..|prefix|] == prefix
  {
    SerializeMapIsJoinedLines(w);
    SerializedLinesStart(w);
    JoinStartsWithTwo(SerializedLines(w), "\n", DimensionHeader, DimensionLine(w.dimension));
  }

  // ---------------------------------------------------------------------------
  // Sections and their order

  /** The section a line belongs to: for a header the letter after "# {", for
      an entity line its first character. */
  function SectionOf(line: string): char {
    if |line| > 3 && line[0] == '#' then line[3] else if |line| > 0 then line[0] else ' '
  }

  /** C, M, T, A in this order; anything else after them. */
  function SectionRank(c: char): nat {
    if c == 'C' then 0 else if c == 'M' then 1 else if c == 'T' then 2 else if c == 'A' then 3 else 4
  }

  predicate InSection(lines: seq<string>, c: char) {
    forall i :: 0 <= i < |lines| ==> SectionOf(lines[i]) == c
  }

  predicate SectionsOrdered(lines: seq<string>) {
    forall i, j :: 0 <= i < j < |lines| ==> SectionRank(SectionOf(lines[i])) <= SectionRank(SectionOf(lines[j]))
  }

  /** Appending a later section keeps the lines in section order. */
  lemma AppendSection(a: seq<string>, b: seq<string>, c: char)
    requires SectionsOrdered(a) && InSection(b, c)
    requires forall i :: 0 <= i < |a| ==> SectionRank(SectionOf(a[i])) <= SectionRank(c)
    ensures SectionsOrdered(a + b)
    ensures forall i :: 0 <= i < |a + b| ==> SectionRank(SectionOf((a + b)[i])) <= SectionRank(c)
  {
    forall i | |a| <= i < |a + b| ensures SectionOf((a + b)[i]) == c {
      assert (a + b)[i] == b[i - |a|];
    }
  }

  lemma DimensionHeaderSection()
    ensures SectionOf(DimensionHeader) == 'C'
  {
  }

  lemma MountainHeaderSection()
    ensures SectionOf(MountainHeader) == 'M'
  {
  }

  lemma TreasureHeaderSection()
    ensures SectionOf(TreasureHeader) == 'T'
  {
  }

  lemma AdventurerHeaderSection()
    ensures SectionOf(AdventurerHeader) == 'A'
  {
  }

  /** A section whose header and entity lines carry the same letter. */
  lemma SectionTagged<T>(header: string, s: seq<T>, line: T -> string, c: char)
    requires SectionOf(header) == c
    requires forall i :: 0 <= i < |s| ==> SectionOf(line(s[i])) == c
    ensures InSection(Section(header, s, line), c)
  {
    var r := Section(header, s, line);
    forall i | 1 <= i < |r| ensures SectionOf(r[i]) == c {
      assert r[i] == r[1..][i - 1] == line(s[i - 1]);
    }
  }

  lemma MountainSectionIsM(mountains: seq<Mountain>)
    ensures InSection(MountainSection(mountains), 'M')
  {
    MountainHeaderSection();
    SectionTagged(MountainHeader, mountains, MountainLine, 'M');
  }

  lemma TreasureSectionIsT(treasures: seq<Treasure>)
    ensures InSection(TreasureSection(treasures), 'T')
  {
    TreasureHeaderSection();
    SectionTagged(TreasureHeader, GroupTreasures(treasures), TreasureLine, 'T');
  }

  lemma AdventurerSectionIsA(adventurers: seq<AdventurerState>)
    ensures InSection(AdventurerSection(adventurers), 'A')
  {
    AdventurerHeaderSection();
    SectionTagged(AdventurerHeader, adventurers, AdventurerLine, 'A');
  }

  /** Four blocks of lines, one per section in the order C, M, T, A. */
  predicate Blocks(d: seq<string>, m: seq<string>, t: seq<string>, a: seq<string>) {
    InSection(d, 'C') && InSection(m, 'M') && InSection(t, 'T') && InSection(a, 'A')
  }

  lemma BlocksOrdered(d: seq<string>, m: seq<string>, t: seq<string>, a: seq<string>)
    requires Blocks(d, m, t, a)
    ensures SectionsOrdered(d + m + t + a)
    ensures forall i :: 0 <= i < |d + m + t + a| ==> SectionOf((d + m + t + a)[i]) in "CMTA"
  {
    AppendSection([], d, 'C');
    assert [] + d == d;
    AppendSection(d, m, 'M');
    AppendSection(d + m, t, 'T');
    AppendSection(d + m + t, a, 'A');
    BlocksSections(d, m, t, a);
  }

  /** A line of section M, T or A comes from that section's block. */
  lemma BlocksSections(d: seq<string>, m: seq<string>, t: seq<string>, a: seq<string>)
    requires Blocks(d, m, t, a)
    ensures forall i :: 0 <= i < |d + m + t + a| ==> SectionOf((d + m + t + a)[i]) in "CMTA"
    ensures forall i :: 0 <= i < |d + m + t + a| && SectionOf((d + m + t + a)[i]) == 'M' ==> |m| > 0
    ensures forall i :: 0 <= i < |d + m + t + a| && SectionOf((d + m + t + a)[i]) == 'T' ==> |t| > 0
    ensures forall i :: 0 <= i < |d + m + t + a| && SectionOf((d + m + t + a)[i]) == 'A' ==> |a| > 0
  {
    var lines := d + m + t + a;
    forall i | 0 <= i < |lines|
      ensures SectionOf(lines[i]) in "CMTA"
      ensures SectionOf(lines[i]) == 'M' ==> |m| > 0
      ensures SectionOf(lines[i]) == 'T' ==> |t| > 0
      ensures SectionOf(lines[i]) == 'A' ==> |a| > 0
    {
      if i < |d| {
        assert lines[i] == d[i];
      } else if i < |d + m| {
        assert lines[i] == m[i - |d|];
      } else if i < |d + m + t| {
        assert lines[i] == t[i - |d + m|];
      } else {
        assert lines[i] == a[i - |d + m + t|];
      }
    }
  }

  lemma SerializedBlocks(w: World)
    ensures Blocks([DimensionHeader, DimensionLine(w.dimension)], MountainSection(w.mountains),
                   TreasureSection(w.treasures), AdventurerSection(w.adventurers))
  {
    DimensionHeaderSection();
    MountainSectionIsM(w.mountains);
    TreasureSectionIsT(w.treasures);
    AdventurerSectionIsA(w.adventurers);
  }

  /** Every line belongs to one of the sections C, M, T, A, and the sections
      come in this order. */
  lemma SectionsInOrder(w: World)
    ensures SectionsOrdered(SerializedLines(w))
    ensures forall i :: 0 <= i < |SerializedLines(w)| ==> SectionOf(SerializedLines(w)[i]) in "CMTA"
  {
    SerializedBlocks(w);
    BlocksOrdered([DimensionHeader, DimensionLine(w.dimension)], MountainSection(w.mountains),
                  TreasureSection(w.treasures), AdventurerSection(w.adventurers));
  }

  /** In four blocks, lines of section M, T or A exist exactly when that
      section's block has some. */
  lemma BlocksPresent(d: seq<string>, m: seq<string>, t: seq<string>, a: seq<string>)
    requires Blocks(d, m, t, a)
    ensures (exists i :: 0 <= i < |d + m + t + a| && SectionOf((d + m + t + a)[i]) == 'M') <==> |m| > 0
    ensures (exists i :: 0 <= i < |d + m + t + a| && SectionOf((d + m + t + a)[i]) == 'T') <==> |t| > 0
    ensures (exists i :: 0 <= i < |d + m + t + a| && SectionOf((d + m + t + a)[i]) == 'A') <==> |a| > 0
  {
    BlocksSections(d, m, t, a);
    var lines := d + m + t + a;
    if |m| > 0 {
      assert lines[|d|] == m[0];
    }
    if |t| > 0 {
      assert lines[|d + m|] == t[0];
    }
    if |a| > 0 {
      assert lines[|d + m + t|] == a[0];
    }
  }

  /** A section's lines are present exactly when it has an entity: a section
      with none is left out, header included. */
  lemma EmptySectionsLeftOut(w: World)
    ensures (exists i :: 0 <= i < |SerializedLines(w)| && SectionOf(SerializedLines(w)[i]) == 'M') <==> |w.mountains| > 0
    ensures (exists i :: 0 <= i < |SerializedLines(w)| && SectionOf(SerializedLines(w)[i]) == 'T') <==> |w.treasures| > 0
    ensures (exists i :: 0 <= i < |SerializedLines(w)| && SectionOf(SerializedLines(w)[i]) == 'A') <==> |w.adventurers| > 0
  {
    var d := [DimensionHeader, DimensionLine(w.dimension)];
    var m := MountainSection(w.mountains);
    var t := TreasureSection(w.treasures);
    var a := AdventurerSection(w.adventurers);
    SerializedBlocks(w);
    BlocksPresent(d, m, t, a);
    assert SerializedLines(w) == d + m + t + a;
    assert |m| > 0 <==> |w.mountains| > 0;
    assert |t| > 0 <==> |w.treasures| > 0;
    assert |a| > 0 <==> |w.adventurers| > 0;
  }

  // ---------------------------------------------------------------------------
  // Grouping the treasures

  lemma FlattenAppend<T>(groups: seq<seq<T>>, g: seq<T>)
    ensures Flatten(groups + [g]) == Flatten(groups) + g
  {
    assert (groups + [g])[..|groups|] == groups;
  }

  lemma {:induction false} FlattenConcat<T>(a: seq<seq<T>>, b: seq<seq<T>>)
    ensures Flatten(a + b) == Flatten(a) + Flatten(b)
    decreases |b|
  {
    if |b| == 0 {
      assert a + b == a;
    } else {
      var n := |b| - 1;
      var ab := a + b;
      assert ab[..|ab| - 1] == a + b[..n];
      assert ab[|ab| - 1] == b[n];
      FlattenConcat(a, b[..n]);
      AppendAssociates(Flatten(a), Flatten(b[..n]), b[n]);
    }
  }

  lemma AppendAssociates<T>(x: seq<T>, y: seq<T>, z: seq<T>)
    ensures (x + y) + z == x + (y + z)
  {
  }

  /** Replacing one group replaces its elements in the flattened multiset. */
  lemma {:induction false} FlattenUpdate<T>(groups: seq<seq<T>>, k: int, g: seq<T>)
    requires 0 <= k < |groups|
    ensures multiset(Flatten(groups[k := g])) + multiset(groups[k]) == multiset(Flatten(groups)) + multiset(g)
    decreases |groups|
  {
    var n := |groups| - 1;
    var updated := groups[k := g];
    var rest, rest' := Flatten(groups[..n]), Flatten(updated[..n]);
    assert Flatten(groups) == rest + groups[n];
    assert Flatten(updated) == rest' + updated[n];
    if k == n {
      assert updated[..n] == groups[..n];
      assert multiset(Flatten(updated)) == multiset(rest) + multiset(g);
      assert multiset(Flatten(groups)) == multiset(rest) + multiset(groups[k]);
    } else {
      assert updated[..n] == groups[..n][k := g];
      assert groups[..n][k] == groups[k];
      FlattenUpdate(groups[..n], k, g);
      MultisetShift(multiset(rest'), multiset(groups[k]), multiset(rest), multiset(g), multiset(groups[n]));
    }
  }

  lemma MultisetShift<T>(a: multiset<T>, b: multiset<T>, c: multiset<T>, d: multiset<T>, e: multiset<T>)
    requires a + b == c + d
    ensures (a + e) + b == (c + e) + d
  {
    forall x ensures ((a + e) + b)[x] == ((c + e) + d)[x] {
      assert (a + b)[x] == (c + d)[x];
    }
  }

  /** No cell is counted by two groups. */
  predicate DistinctKeys(groups: seq<TreasureCount>) {
    forall i, j :: 0 <= i < j < |groups| ==> groups[i].treasure != groups[j].treasure
  }

  /** Every group counts a unit of the list. */
  predicate KeysOccur(groups: seq<TreasureCount>, treasures: seq<Treasure>) {
    forall i :: 0 <= i < |groups| ==> groups[i].treasure in treasures
  }

  /** Every group carries the multiplicity of its unit. */
  predicate CountsAreMultiplicities(groups: seq<TreasureCount>, treasures: seq<Treasure>) {
    forall i :: 0 <= i < |groups| ==> groups[i].count == multiset(treasures)[groups[i].treasure]
  }

  /** Every unit of the list is counted by some group. */
  predicate CoversUnits(groups: seq<TreasureCount>, treasures: seq<Treasure>) {
    forall k :: 0 <= k < |treasures| ==> IndexOfTreasure(groups, treasures[k]) >= 0
  }

  /** An earlier group's unit occurs in the list before any unit of a later group. */
  predicate FirstOccurrenceOrder(groups: seq<TreasureCount>, treasures: seq<Treasure>) {
    forall i, j, k :: 0 <= i < j < |groups| && 0 <= k < |treasures| && treasures[k] == groups[j].treasure
      ==> groups[i].treasure in treasures[..k]
  }

  /** The groups stand for the units of the list. */
  predicate SameUnits(groups: seq<TreasureCount>, treasures: seq<Treasure>) {
    multiset(Flatten(Expand(groups))) == multiset(treasures)
  }

  /** `groups` counts `treasures`. */
  predicate GroupsOf(groups: seq<TreasureCount>, treasures: seq<Treasure>) {
    && DistinctKeys(groups) && KeysOccur(groups, treasures) && CountsAreMultiplicities(groups, treasures)
    && CoversUnits(groups, treasures) && FirstOccurrenceOrder(groups, treasures) && SameUnits(groups, treasures)
  }

  /** Counting a unit of a counted cell raises that group's count only. */
  lemma AddCounted(groups: seq<TreasureCount>, t: Treasure)
    requires IndexOfTreasure(groups, t) >= 0
    ensures var k := IndexOfTreasure(groups, t); var r := AddTreasure(groups, t);
      && |r| == |groups| && r[k].treasure == t && r[k].count == groups[k].count + 1
      && (forall i :: 0 <= i < |r| ==> r[i].treasure == groups[i].treasure)
      && (forall i :: 0 <= i < |r| && i != k ==> r[i] == groups[i])
  {
  }

  /** The same cells, in the same order: the set of keys is unchanged. */
  lemma CountedKeys(groups: seq<TreasureCount>, treasures: seq<Treasure>, t: Treasure)
    requires IndexOfTreasure(groups, t) >= 0
    requires DistinctKeys(groups) && KeysOccur(groups, treasures) && CoversUnits(groups, treasures)
    ensures var r := AddTreasure(groups, t);
      DistinctKeys(r) && KeysOccur(r, treasures + [t]) && CoversUnits(r, treasures + [t])
  {
    AddCounted(groups, t);
    var k := IndexOfTreasure(groups, t);
    var r := AddTreasure(groups, t);
    var ts := treasures + [t];
    forall q | 0 <= q < |ts| ensures IndexOfTreasure(r, ts[q]) >= 0 {
      if q < |treasures| {
        assert ts[q] == treasures[q];
        var p := IndexOfTreasure(groups, ts[q]);
        assert r[p].treasure == ts[q];
      } else {
        assert r[k].treasure == ts[q];
      }
    }
  }

  lemma CountedCounts(groups: seq<TreasureCount>, treasures: seq<Treasure>, t: Treasure)
    requires IndexOfTreasure(groups, t) >= 0
    requires DistinctKeys(groups) && CountsAreMultiplicities(groups, treasures)
    ensures CountsAreMultiplicities(AddTreasure(groups, t), treasures + [t])
  {
    AddCounted(groups, t);
    var k := IndexOfTreasure(groups, t);
    var r := AddTreasure(groups, t);
    var ts := treasures + [t];
    assert multiset(ts) == multiset(treasures) + multiset{t};
    forall i | 0 <= i < |r| ensures r[i].count == multiset(ts)[r[i].treasure] {
      if i != k {
        assert groups[i].treasure != t;
      }
    }
  }

  lemma CountedOrder(groups: seq<TreasureCount>, treasures: seq<Treasure>, t: Treasure)
    requires IndexOfTreasure(groups, t) >= 0
    requires KeysOccur(groups, treasures) && FirstOccurrenceOrder(groups, treasures)
    ensures FirstOccurrenceOrder(AddTreasure(groups, t), treasures + [t])
  {
    AddCounted(groups, t);
    var r := AddTreasure(groups, t);
    var ts := treasures + [t];
    forall i, j, q | 0 <= i < j < |r| && 0 <= q < |ts| && ts[q] == r[j].treasure
      ensures r[i].treasure in ts[..q]
    {
      if q < |treasures| {
        assert ts[..q] == treasures[..q];
        assert treasures[q] == groups[j].treasure;
      } else {
        assert ts[..q] == treasures;
      }
    }
  }

  lemma CountedUnits(groups: seq<TreasureCount>, treasures: seq<Treasure>, t: Treasure)
    requires IndexOfTreasure(groups, t) >= 0
    requires SameUnits(groups, treasures)
    ensures SameUnits(AddTreasure(groups, t), treasures + [t])
  {
    AddCounted(groups, t);
    var k := IndexOfTreasure(groups, t);
    var r := AddTreasure(groups, t);
    var e := Expand(groups);
    var c := groups[k].count;
    var g := Repeat(t, c + 1);
    assert Expand(r) == e[k := g];
    FlattenUpdate(e, k, g);
    assert g == e[k] + [t];
    MultisetCancel(multiset(Flatten(Expand(r))), multiset(Flatten(e)) + multiset{t}, multiset(e[k]));
    assert multiset(treasures + [t]) == multiset(treasures) + multiset{t};
  }

  lemma MultisetCancel<T>(a: multiset<T>, b: multiset<T>, c: multiset<T>)
    requires a + c == b + c
    ensures a == b
  {
    forall x ensures a[x] == b[x] {
      assert (a + c)[x] == (b + c)[x];
    }
  }

  /** The first unit of a cell not counted yet opens a group at the end. */
  lemma NewKeys(groups: seq<TreasureCount>, treasures: seq<Treasure>, t: Treasure)
    requires IndexOfTreasure(groups, t) == -1
    requires DistinctKeys(groups) && KeysOccur(groups, treasures) && CoversUnits(groups, treasures)
    ensures var r := AddTreasure(groups, t);
      DistinctKeys(r) && KeysOccur(r, treasures + [t]) && CoversUnits(r, treasures + [t])
  {
    var r := AddTreasure(groups, t);
    var ts := treasures + [t];
    assert r == groups + [TreasureCount(t, 1)];
    forall q | 0 <= q < |ts| ensures IndexOfTreasure(r, ts[q]) >= 0 {
      if q < |treasures| {
        var p := IndexOfTreasure(groups, treasures[q]);
        assert r[p].treasure == ts[q];
      } else {
        assert r[|groups|].treasure == ts[q];
      }
    }
  }

  /** A unit no group counts does not occur in the list. */
  lemma UncountedAbsent(groups: seq<TreasureCount>, treasures: seq<Treasure>, t: Treasure)
    requires IndexOfTreasure(groups, t) == -1 && CoversUnits(groups, treasures)
    ensures t !in treasures
  {
    forall q | 0 <= q < |treasures| ensures treasures[q] != t {
      assert IndexOfTreasure(groups, treasures[q]) >= 0;
    }
  }

  lemma NewCounts(groups: seq<TreasureCount>, treasures: seq<Treasure>, t: Treasure)
    requires IndexOfTreasure(groups, t) == -1
    requires CoversUnits(groups, treasures) && CountsAreMultiplicities(groups, treasures)
    ensures CountsAreMultiplicities(AddTreasure(groups, t), treasures + [t])
  {
    var r := AddTreasure(groups, t);
    var ts := treasures + [t];
    assert r == groups + [TreasureCount(t, 1)];
    UncountedAbsent(groups, treasures, t);
    assert multiset(ts) == multiset(treasures) + multiset{t};
    forall i | 0 <= i < |r| ensures r[i].count == multiset(ts)[r[i].treasure] {
      if i < |groups| {
        assert r[i] == groups[i];
      }
    }
  }

  lemma NewOrder(groups: seq<TreasureCount>, treasures: seq<Treasure>, t: Treasure)
    requires IndexOfTreasure(groups, t) == -1 && CoversUnits(groups, treasures)
    requires KeysOccur(groups, treasures) && FirstOccurrenceOrder(groups, treasures)
    ensures FirstOccurrenceOrder(AddTreasure(groups, t), treasures + [t])
  {
    var r := AddTreasure(groups, t);
    var ts := treasures + [t];
    assert r == groups + [TreasureCount(t, 1)];
    UncountedAbsent(groups, treasures, t);
    forall i, j, q | 0 <= i < j < |r| && 0 <= q < |ts| && ts[q] == r[j].treasure
      ensures r[i].treasure in ts[..q]
    {
      if j < |groups| {
        assert groups[j].treasure != t;
        assert q < |treasures|;
        assert ts[..q] == treasures[..q];
      } else {
        assert ts[q] == t;
        assert q == |treasures|;
        assert ts[..q] == treasures;
      }
    }
  }

  lemma NewUnits(groups: seq<TreasureCount>, treasures: seq<Treasure>, t: Treasure)
    requires IndexOfTreasure(groups, t) == -1
    requires SameUnits(groups, treasures)
    ensures SameUnits(AddTreasure(groups, t), treasures + [t])
  {
    var r := AddTreasure(groups, t);
    var e := Expand(groups);
    assert r == groups + [TreasureCount(t, 1)];
    assert Repeat(t, 1) == [t];
    assert Expand(r) == e + [[t]] by {
      forall i | 0 <= i < |r| ensures Expand(r)[i] == (e + [[t]])[i] {
        if i < |groups| {
          assert r[i] == groups[i];
        }
      }
    }
    FlattenAppend(e, [t]);
    assert multiset(Flatten(e) + [t]) == multiset(Flatten(e)) + multiset{t};
    assert multiset(treasures + [t]) == multiset(treasures) + multiset{t};
  }

  /** Counting one more unit keeps the groups a grouping of the longer list. */
  lemma GroupStep(groups: seq<TreasureCount>, treasures: seq<Treasure>, t: Treasure)
    requires GroupsOf(groups, treasures)
    ensures GroupsOf(AddTreasure(groups, t), treasures + [t])
  {
    if IndexOfTreasure(groups, t) >= 0 {
      CountedKeys(groups, treasures, t);
      CountedCounts(groups, treasures, t);
      CountedOrder(groups, treasures, t);
      CountedUnits(groups, treasures, t);
    } else {
      NewKeys(groups, treasures, t);
      NewCounts(groups, treasures, t);
      NewOrder(groups, treasures, t);
      NewUnits(groups, treasures, t);
    }
  }

  lemma {:induction false} GroupTreasuresGroups(treasures: seq<Treasure>)
    ensures GroupsOf(GroupTreasures(treasures), treasures)
    decreases |treasures|
  {
    if |treasures| > 0 {
      var n := |treasures| - 1;
      var prefix := treasures[..n];
      GroupTreasuresGroups(prefix);
      assert treasures == prefix + [treasures[n]];
      GroupStep(GroupTreasures(prefix), prefix, treasures[n]);
    }
  }

  /** The counts of a list of groups, added up. */
  function SumCounts(groups: seq<TreasureCount>): nat
    decreases |groups|
  {
    if |groups| == 0 then 0 else SumCounts(groups[..|groups| - 1]) + groups[|groups| - 1].count
  }

  lemma {:induction false} ExpandLength(groups: seq<TreasureCount>)
    ensures |Flatten(Expand(groups))| == SumCounts(groups)
    decreases |groups|
  {
    if |groups| > 0 {
      var n := |groups| - 1;
      ExpandLength(groups[..n]);
      assert Expand(groups)[..n] == Expand(groups[..n]);
    }
  }

  /** The treasure lines: one per distinct cell, none twice, in order of first
      occurrence; each carries the number of units on its cell, at least one;
      the counts add up to the number of units and stand for the same units. */
  lemma GroupTreasuresCounts(treasures: seq<Treasure>)
    ensures DistinctKeys(GroupTreasures(treasures))
    ensures var groups := GroupTreasures(treasures);
      forall i :: 0 <= i < |groups| ==> groups[i].count >= 1
    ensures var groups := GroupTreasures(treasures);
      forall i :: 0 <= i < |groups| ==> groups[i].count == multiset(treasures)[groups[i].treasure]
    ensures var groups := GroupTreasures(treasures);
      forall k :: 0 <= k < |treasures| ==> IndexOfTreasure(groups, treasures[k]) >= 0
    ensures var groups := GroupTreasures(treasures);
      forall i, j, k :: 0 <= i < j < |groups| && 0 <= k < |treasures| && treasures[k] == groups[j].treasure
        ==> groups[i].treasure in treasures[..k]
    ensures multiset(Flatten(Expand(GroupTreasures(treasures)))) == multiset(treasures)
    ensures SumCounts(GroupTreasures(treasures)) == |treasures|
  {
    GroupTreasuresGroups(treasures);
    GroupsOfCounts(GroupTreasures(treasures), treasures);
  }

  /** What a grouping of a list says about its counts. */
  lemma GroupsOfCounts(groups: seq<TreasureCount>, treasures: seq<Treasure>)
    requires GroupsOf(groups, treasures)
    ensures && DistinctKeys(groups)
      && (forall i :: 0 <= i < |groups| ==> groups[i].count >= 1)
      && (forall i :: 0 <= i < |groups| ==> groups[i].count == multiset(treasures)[groups[i].treasure])
      && (forall k :: 0 <= k < |treasures| ==> IndexOfTreasure(groups, treasures[k]) >= 0)
      && (forall i, j, k :: 0 <= i < j < |groups| && 0 <= k < |treasures| && treasures[k] == groups[j].treasure
            ==> groups[i].treasure in treasures[..k])
      && multiset(Flatten(Expand(groups))) == multiset(treasures)
      && SumCounts(groups) == |treasures|
  {
    CountsPositive(groups, treasures);
    CountsAddUp(groups, treasures);
  }

  lemma CountsPositive(groups: seq<TreasureCount>, treasures: seq<Treasure>)
    requires KeysOccur(groups, treasures) && CountsAreMultiplicities(groups, treasures)
    ensures forall i :: 0 <= i < |groups| ==> groups[i].count >= 1
  {
    forall i | 0 <= i < |groups| ensures groups[i].count >= 1 {
      assert groups[i].treasure in multiset(treasures);
    }
  }

  lemma CountsAddUp(groups: seq<TreasureCount>, treasures: seq<Treasure>)
    requires SameUnits(groups, treasures)
    ensures SumCounts(groups) == |treasures|
  {
    var units := Flatten(Expand(groups));
    ExpandLength(groups);
    assert |multiset(units)| == |units|;
    assert |multiset(treasures)| == |treasures|;
  }
}
