# TreasureHunt, modelled in Dafny

TreasureHunt reads a text map of a rectangular country, with mountains,
stacks of treasure and adventurers, plays the adventurers' moves and writes
the map back as text. The map has a header line `C - width - height`. After it
come lines `M - x - y` (a mountain), `T - x - y - n` (n treasure units on a
cell) and `A - name - x - y - orientation - moves` (an adventurer). A move is
`A` (advance), `G` (turn left) or `D` (turn right).

This project models the three services and the models they work on:

- **`MapParser`** (`parser.dfy`). Blank lines and `#` comments are ignored.
  Lines are split into fields, negative numbers are refused, and the number
  of fields is checked for each kind of entity. Positions are checked against
  the grid, orientations and moves are validated, and overlapping entities
  are refused. Every refusal is an `InitializationError` value, the model of
  `InitializationMapException`. The specification layer consists of total
  functions on text (`ParseMap`, `ParseMapDimension`, `ParseMountainLine`,
  …). The C# loops and the `Map` construction are methods proved equal
  to those functions (`CreateMap`, `GenerateMountains`, …).
- **`TreasureHuntService`** (`engine.dfy`). The hunt is played in rounds. In
  each round every adventurer with moves left takes its next move, in list
  order. An advance is blocked by the edge, by a mountain or by another
  adventurer. Arriving on a treasure cell collects one unit. The world is a
  value (`World`). The imperative methods update a `Map` object and its
  `Adventurer` objects in place, and are proved to leave the snapshot that
  the functions `Collected`, `Advanced`, `Stepped`, `Round` and `Hunt`
  compute.
- **`MapSerializer`** (`serializer.dfy`). It writes a commented header and
  the entity lines, section by section. Treasures are grouped by cell with
  their counts, and the text has no final newline.
- **Models** (`models.dfy`):
  - the orientations with their degree values and displacements;
  - mountains and treasures;
  - the `uint` treasure count with its wrap-around;
  - the `Adventurer` and `Map` classes.

The properties proved are grouped by module:

- `hunt_properties.dfy`: the turn algebra, one-step behaviour, and what the
  whole hunt keeps:
  - the frame;
  - the treasure multiset only shrinks;
  - units on the map plus units collected are constant modulo 2^32;
  - playability is preserved;
  - every queue ends empty, after exactly as many rounds as the longest
    queue.
- `parser_properties.dfy`: which lines are ignored, the order of the checks
  on each line, which errors can come from where, and that every accepted
  map is well formed and playable.
- `serializer_properties.dfy`: the serialized text as joined lines, the
  section order, empty sections, and the grouping of treasures.
- `line_codec.dfy` and `codec.dfy`: the serializer's output read back by the
  parser. A map without adventurers round-trips. A map with adventurers is
  always refused, because the serialized `A` line ends with the treasure
  count where the parser expects the moves.
- `scenarios.dfy`: concrete hunts from the repository's unit tests.

Supporting modules:

- `results.dfy`: `Result`, the error kinds, and `MapAll`, the first failure of
  a `Select` over lines;
- `text.dfy`: trimming, `Split`, `Join`, `int.Parse` on plain digits, and the
  number-to-text conversion;
- `collections.dfy`: `Where`, `Select`, `List.Remove`, `Enumerable.Repeat` and
  `SelectMany`.

Three behaviours of the C# code the model keeps:

- The parser accepts positions with `0 <= x < width` and `0 <= y < height`.
  The engine lets adventurers walk onto `x == width` or `y == height`
  (`MapParserProperties.BoundsDiffer`).
- A text made only of comments is not rejected as "no data". Indexing the
  first line of an empty array fails there, modelled as `IndexOutOfRange`.
- The serialized adventurer line cannot be parsed back.

## Model

| member | source | states |
|---|---|---|
| MapParser.RemoveBlankLines | TreasureHunt/MapParser.cs:19 | every line kept is a non-blank input line and every non-blank input line is kept; empty precisely when every line is blank |
| MapParserProperties.RemoveBlankLinesInOrder | TreasureHunt/MapParser.cs:19 | the non-blank lines in input order, duplicates kept: nothing from nothing, one line kept exactly when not blank, a concatenation filtered piece by piece |
| MapParser.RemoveComments | TreasureHunt/MapParser.cs:23 | every line kept is a non-comment input line and every non-comment input line is kept |
| MapParserProperties.RemoveCommentsInOrder | TreasureHunt/MapParser.cs:23-26 | the non-comment lines in input order, duplicates kept, so the first line left is the first non-comment line |
| MapParser.GetLinesOfType | TreasureHunt/MapParser.cs:228-231 | every line kept starts with the kind and every input line starting with it is kept |
| MapParserProperties.GetLinesOfTypeInOrder | TreasureHunt/MapParser.cs:228-231 | the lines of the kind in input order, duplicates kept: a line written twice gives two entities |
| MapParser.HasNegativeNumber | TreasureHunt/MapParser.cs:249-250 | true exactly when some position of the line matches the pattern `-` then a non-zero digit |
| MapParser.Fields | TreasureHunt/MapParser.cs:244-246 | one field more than there are `-` in the line, each trimmed and free of `-` |
| MapParser.RetrieveDataFromLine | TreasureHunt/MapParser.cs:239-247 | fails with the negative-number error exactly when the line holds a negative number; otherwise gives the trimmed fields |
| MapParser.VerifyLineDataArgumentAmount | TreasureHunt/MapParser.cs:215-221 | succeeds exactly for the expected count; too many is reported as such, too few as such |
| MapParser.VerifyEntityIsInDimension | TreasureHunt/MapParser.cs:163-169 | succeeds exactly when x < width and y < height; otherwise an out-of-bounds error naming the entity and position |
| MapParser.ParseNumber | TreasureHunt/MapParser.cs:55 | succeeds exactly when the field is a plain number, with that non-negative value; otherwise a format error |
| MapParser.ParseOrientation | TreasureHunt/MapParser.cs:143-153 | succeeds exactly for N, S, E, W, giving the orientation whose name starts with that letter; otherwise names the bad character |
| MapParser.InstructionsCheck | TreasureHunt/MapParser.cs:198-205 | succeeds exactly when every move is A, G or D; a failure names a bad character whose predecessors are all valid |
| MapParser.VerifyAdventurerInstructions | TreasureHunt/MapParser.cs:198-205 | the character loop gives the same verdict as InstructionsCheck |
| MapParser.ParseMapDimension | TreasureHunt/MapParser.cs:46-57 | an accepted `C` line has three fields, tag `C`, and non-negative width and height read from fields 1 and 2 |
| MapParser.DimensionOfFields | TreasureHunt/MapParser.cs:50-56 | accepted fields are three, tagged `C`, with the two numbers as width and height |
| MapParser.ParseMountainLine | TreasureHunt/MapParser.cs:64-82 | an accepted `M` line has three fields and gives a mountain on the grid at the two numbers read |
| MapParser.MountainOfFields | TreasureHunt/MapParser.cs:72-78 | accepted fields are three and give a mountain on the grid at fields 1 and 2 |
| MapParser.ParseTreasureLine | TreasureHunt/MapParser.cs:89-107 | an accepted `T` line has four fields and gives as many units on the grid as its last number says |
| MapParser.TreasureOfFields | TreasureHunt/MapParser.cs:97-104 | accepted fields are four; the number of units is field 3, each on the grid |
| MapParser.ParseAdventurerLine | TreasureHunt/MapParser.cs:114-135 | an accepted `A` line has six fields and gives an adventurer on the grid with that name and those valid moves, the orientation of field 4's first letter, and no treasure |
| MapParser.AdventurerOfFields | TreasureHunt/MapParser.cs:122-131 | accepted fields are six; name, moves and orientation come from fields 1, 5 and 4, the position is on the grid, the count is 0 |
| MapParser.GenerateMountains | TreasureHunt/MapParser.cs:64-82 | the loop over `M` lines gives MountainsOf: all mountains in order, or the first line's error |
| MapParser.GenerateTreasures | TreasureHunt/MapParser.cs:89-107 | the loop over `T` lines gives TreasuresOf: every line's units in order, or the first line's error |
| MapParser.ParseAdventurer | TreasureHunt/MapParser.cs:118-131 | the per-line body of the adventurer loop gives the same result as ParseAdventurerLine |
| MapParser.GenerateAdventurers | TreasureHunt/MapParser.cs:114-135 | fails exactly when a line is refused, with the first error; otherwise fresh, distinct adventurer objects whose states are the parsed ones |
| MapParser.BuildAdventurers | TreasureHunt/MapParser.cs:131 | allocates one fresh, distinct object per parsed adventurer, with that state |
| MapParser.VerifyEntitiesAreNotOverlapping | TreasureHunt/MapParser.cs:178-191 | the loop with its set of seen cells refuses exactly when two mountains or adventurers share a cell |
| MapParser.CreateMap | TreasureHunt/MapParser.cs:16-37 | fails exactly when ParseMap does, with its error; otherwise a fresh, valid map whose snapshot is ParseMap's world |
| MapParser.CreateEntities | TreasureHunt/MapParser.cs:28-36 | mountains, then adventurers, then the overlap and treasures, with the same verdict and world as ParseEntities |
| MapParser.CompleteMap | TreasureHunt/MapParser.cs:32-36 | the overlap check, then the treasures, then a fresh map holding the given adventurer objects |
| TreasureHuntService.TurnLeft | TreasureHunt/TreasureHuntService.cs:69-72 | the degree arithmetic is the counter-clockwise quarter turn |
| TreasureHuntService.TurnRight | TreasureHunt/TreasureHuntService.cs:78-81 | the degree arithmetic is the clockwise quarter turn |
| TreasureHuntService.FirstTreasureAt | TreasureHunt/TreasureHuntService.cs:154 | when some unit lies on the cell, the one found is in the list and on that cell |
| TreasureHuntService.SteppedQueues | TreasureHunt/TreasureHuntService.cs:30-32 | a step keeps the frame, takes the head of the stepping adventurer's queue and leaves every other queue alone |
| TreasureHuntService.MaxQueue | TreasureHunt/TreasureHuntService.cs:16 | bounds every queue length and is reached by one of them |
| TreasureHuntService.RoundQueues | TreasureHunt/TreasureHuntService.cs:26-47 | a round keeps the frame and shortens every non-empty queue by exactly one |
| TreasureHuntService.RoundShortensLongestQueue | TreasureHunt/TreasureHuntService.cs:14-19 | while moves remain, a round lowers the longest queue by one, so the hunt loop ends |
| TreasureHuntService.CollectTreasure | TreasureHunt/TreasureHuntService.cs:150-158 | the map left is Collected: the count goes up (mod 2^32), the first unit on the cell leaves the list |
| TreasureHuntService.Advance | TreasureHunt/TreasureHuntService.cs:54-63 | the map left is Advanced: no change when blocked, else the move and a collection on a treasure cell |
| TreasureHuntService.HuntOneTurn | TreasureHunt/TreasureHuntService.cs:26-47 | the foreach over adventurers leaves Round of the map it was given |
| TreasureHuntService.TakeTurn | TreasureHunt/TreasureHuntService.cs:30-44 | skipping an adventurer without moves, or dequeueing and performing its next move, leaves Stepped of the map |
| TreasureHuntService.Perform | TreasureHunt/TreasureHuntService.cs:33-44 | the switch leaves Performed: advance, turn left, turn right, or nothing |
| TreasureHuntService.StartTreasureHunt | TreasureHunt/TreasureHuntService.cs:12-20 | the while loop leaves Hunt of the initial map and returns the same object |
| TreasureHuntProperties.TurnsCancel | TreasureHunt/TreasureHuntService.cs:69-81 | a left turn undoes a right turn and the other way round |
| TreasureHuntProperties.FourTurnsAreIdentity | TreasureHunt/TreasureHuntService.cs:69-81 | four turns the same way come back to the start |
| TreasureHuntProperties.OppositeDisplacement | TreasureHunt/Models/OrientationDict.cs:5-11 | a half turn negates the displacement |
| TreasureHuntProperties.IsNotInMapIff | TreasureHunt/TreasureHuntService.cs:125-131 | off the map exactly outside the closed rectangle [0, width] x [0, height] |
| TreasureHuntProperties.NewPositionIsNeighbour | TreasureHunt/TreasureHuntService.cs:97-105 | the target of an advance is one cell away along one axis |
| TreasureHuntProperties.BlockedAdvanceChangesNothing | TreasureHunt/TreasureHuntService.cs:58-59 | an advance into the edge, a mountain or an adventurer leaves the whole world unchanged |
| TreasureHuntProperties.FreeAdvance | TreasureHunt/TreasureHuntService.cs:60-62 | a free advance moves only that adventurer and collects one unit exactly when the cell holds one |
| TreasureHuntProperties.TurnStep | TreasureHunt/TreasureHuntService.cs:38-43 | G and D change the heading and pop the move, nothing else |
| TreasureHuntProperties.InvalidInstructionIsDropped | TreasureHunt/TreasureHuntService.cs:32-44 | any other character is popped and does nothing |
| TreasureHuntProperties.OnlyArrivalCollects | TreasureHunt/TreasureHuntService.cs:33-44 | only an advance can collect; standing on a treasure collects nothing |
| TreasureHuntProperties.CollectedTotal | TreasureHunt/TreasureHuntService.cs:150-158 | collecting keeps units on the map plus units collected, modulo 2^32, exactly below the wrap |
| TreasureHuntProperties.RoundFromKeeps | TreasureHunt/TreasureHuntService.cs:28-46 | the rest of a round keeps the frame, the treasure totals and playability |
| TreasureHuntProperties.HuntKeeps | TreasureHunt/TreasureHuntService.cs:12-20 | the whole hunt keeps the frame, the treasure totals and playability |
| TreasureHuntProperties.HuntEmptiesQueues | TreasureHunt/TreasureHuntService.cs:14-19 | after the hunt every adventurer's queue is empty |
| TreasureHuntProperties.HuntIsLongestQueueRounds | TreasureHunt/TreasureHuntService.cs:14-19 | the hunt is exactly as many rounds as the longest initial queue |
| TreasureHuntProperties.HuntWithoutAdventurers | TreasureHunt/TreasureHuntService.cs:14-19 | a map without adventurers comes back unchanged |
| TreasureHuntProperties.HuntInvariants | TreasureHunt/TreasureHuntService.cs:12-20 | dimension, mountains and adventurer names stay; treasures only leave; the total is kept mod 2^32; playability is kept |
| Models.Degrees | TreasureHunt/TreasureHuntService.cs:71 | every orientation's value is one of 0, 90, 180, 270 |
| Models.FromDegrees | TreasureHunt/TreasureHuntService.cs:71 | the cast back from degrees inverts Degrees |
| Models.DegreesRoundTrip | TreasureHunt/TreasureHuntService.cs:71 | casting an orientation to degrees and back gives it again |
| Models.OrientationName | TreasureHunt/MapSerializer.cs:92-93 | every orientation has a non-empty name, whose first letter is written |
| Models.OrientationToPositionIsTotal | TreasureHunt/Models/OrientationDict.cs:5-11 | the dictionary has an entry for every orientation, so the lookup always succeeds |
| Models.DisplacementIsUnitStep | TreasureHunt/Models/OrientationDict.cs:5-11 | every displacement is a unit step along one axis |
| Models.MountainAt | TreasureHunt/Models/Mountain.cs:12-15 | the coordinate constructor puts the mountain at (x, y) |
| Models.TreasureAt | TreasureHunt/Models/Treasure.cs:12-15 | the coordinate constructor puts the treasure at (x, y) |
| Models.IncrementUInt | TreasureHunt/TreasureHuntService.cs:152 | the `uint` increment wraps at 2^32 |
| Models.Adventurer.constructor | TreasureHunt/Models/Adventurer.cs:7-19 | the enqueue loop leaves the moves in order, with the given name, position, orientation and count |
| Models.Adventurer.FromCoordinates | TreasureHunt/Models/Adventurer.cs:21-33 | the same, at the position (x, y) |
| Models.Adventurer.Dequeue | TreasureHunt/TreasureHuntService.cs:32 | returns the head of the queue and leaves the rest, nothing else changes |
| Models.Map.constructor | TreasureHunt/MapParser.cs:36 | the map holds exactly the given dimension, mountains, treasures and adventurers |
| MapSerializer.HeadersAreComments | TreasureHunt/MapSerializer.cs:44-90 | every section header is a one-line comment, which the parser skips |
| MapSerializer.GroupTreasures | TreasureHunt/MapSerializer.cs:72-73 | no more groups than units, and none exactly when there are no units |
| MapSerializer.Section | TreasureHunt/MapSerializer.cs:52-94 | an empty section gives no lines; otherwise its header and one line per entity |
| MapSerializerProperties.AggregateLinesUnlines | TreasureHunt/MapSerializer.cs:76-77 | the left fold appending line and newline is the lines each followed by a newline |
| MapSerializerProperties.SerializeMapUnlines | TreasureHunt/MapSerializer.cs:25-36 | before the final trim, the text is every serialized line followed by a newline |
| MapSerializerProperties.SerializeMapIsJoinedLines | TreasureHunt/MapSerializer.cs:25-36 | the text is the serialized lines joined by newlines, with no newline at the end |
| MapSerializerProperties.SplitSerializedMap | TreasureHunt/MapSerializer.cs:25-36 | splitting the text at newlines gives back exactly the serialized lines |
| MapSerializerProperties.SerializeMapStartsWithDimension | TreasureHunt/MapSerializer.cs:42-46 | the text starts with the dimension header and the `C` line |
| MapSerializerProperties.SectionsInOrder | TreasureHunt/MapSerializer.cs:25-36 | the entity lines come in section order C, M, T, A, each after its header |
| MapSerializerProperties.EmptySectionsLeftOut | TreasureHunt/MapSerializer.cs:52-94 | a section header appears exactly when that section has entities |
| MapSerializerProperties.GroupTreasuresGroups | TreasureHunt/MapSerializer.cs:66-78 | one group per distinct cell, in order of first occurrence, counting that cell's units, covering the same units |
| MapSerializerProperties.ExpandLength | TreasureHunt/MapSerializer.cs:72-77 | the groups stand for as many units as their counts add up to |
| MapSerializerProperties.GroupTreasuresCounts | TreasureHunt/MapSerializer.cs:66-78 | groups have distinct cells; every count is at least one and equals that cell's multiplicity; expanding them gives the same multiset of units |
| LineCodec.DimensionLineRoundTrip | TreasureHunt/MapSerializer.cs:42-46 | a serialized `C` line of non-negative numbers parses back to the same dimension |
| LineCodec.MountainLineRoundTrip | TreasureHunt/MapSerializer.cs:52-60 | a serialized mountain on the grid parses back to the same mountain |
| LineCodec.TreasureLineRoundTrip | TreasureHunt/MapSerializer.cs:66-78 | a serialized `T` line on the grid parses back to that many units on the cell |
| LineCodec.MountainsRoundTrip | TreasureHunt/MapParser.cs:64-82 | the serialized mountain lines parse back to the same mountains in order |
| LineCodec.TreasuresRoundTrip | TreasureHunt/MapParser.cs:89-107 | the serialized treasure lines parse back to the expanded groups |
| LineCodec.AdventurerLineRefused | TreasureHunt/MapSerializer.cs:92-93 | a serialized adventurer line never parses, whatever the dimension |
| LineCodec.AdventurerLineRefusesMap | TreasureHunt/MapParser.cs:114-135 | any text holding one serialized adventurer line is refused |
| LineCodec.RefusedLineRefusesMap | TreasureHunt/MapParser.cs:30 | an `A` line refused under every dimension makes the whole text refused |
| MapCodec.RoundTripWithoutAdventurers | TreasureHunt/MapSerializer.cs:25-36 | a well-formed map without adventurers is read back with the same dimension and mountains and the same units, grouped by cell |
| MapCodec.AdventurersDoNotRoundTrip | TreasureHunt/MapSerializer.cs:84-94 | the text of a map with adventurers (one-line names) is refused by the parser |
| MapParserProperties.BlankLineIgnored | TreasureHunt/MapParser.cs:19 | inserting a blank line anywhere does not change the result |
| MapParserProperties.CommentLineIgnored | TreasureHunt/MapParser.cs:23 | inserting a comment line anywhere does not change the result once some data is present |
| MapParserProperties.OnlyCommentsRefused | TreasureHunt/MapParser.cs:20-26 | a text of comments and blanks only fails at indexing the first line, not with "no data" |
| MapParserProperties.NoDataIffBlank | TreasureHunt/MapParser.cs:19-21 | the "no data" error comes exactly from texts whose lines are all blank |
| MapParserProperties.OtherLineIgnored | TreasureHunt/MapParser.cs:28-33 | after the first entry, a line of no entity kind makes no difference |
| MapParserProperties.EntitiesOfSameKinds | TreasureHunt/MapParser.cs:28-33 | the entities depend only on the M, T and A lines |
| MapParserProperties.MountainLineErrors | TreasureHunt/MapParser.cs:64-82 | a refused mountain line gives a line error, never "no data" or overlap |
| MapParserProperties.TreasureLineErrors | TreasureHunt/MapParser.cs:89-107 | a refused treasure line gives a line error |
| MapParserProperties.AdventurerLineErrors | TreasureHunt/MapParser.cs:114-135 | a refused adventurer line gives a line error |
| MapParserProperties.DimensionLineErrors | TreasureHunt/MapParser.cs:46-57 | a refused `C` line gives a line error |
| MapParserProperties.EntitiesNeverNoData | TreasureHunt/MapParser.cs:28-33 | entity parsing never reports "no data" |
| MapParserProperties.DimensionLineChecks | TreasureHunt/MapParser.cs:46-57 | checks in order: negative number, too many, too few, tag not `C`; accepted exactly with two numbers |
| MapParserProperties.MountainFieldsChecks | TreasureHunt/MapParser.cs:72-76 | more than three fields is too many, fewer is too few; with three numbers the mountain is accepted exactly when it lies on the grid |
| MapParserProperties.MountainLineChecks | TreasureHunt/MapParser.cs:64-82 | checks in order: negative number, field count, then the numbers and bounds |
| MapParserProperties.TreasureFieldsChecks | TreasureHunt/MapParser.cs:97-103 | field count before numbers; bounds before the unit count |
| MapParserProperties.TreasureLineChecks | TreasureHunt/MapParser.cs:89-107 | negative number first, then field count, then position, bounds and count |
| MapParserProperties.AdventurerFieldsChecks | TreasureHunt/MapParser.cs:122-131 | field count before numbers; bounds before moves, moves before orientation |
| MapParserProperties.AdventurerLineChecks | TreasureHunt/MapParser.cs:114-135 | negative number first, then field count, then the field checks |
| MapParserProperties.ParsedWorldIsWellFormed | TreasureHunt/MapParser.cs:16-37 | an accepted map has a non-negative dimension, entities on the grid, no shared cell, counts 0 and valid moves |
| MapParserProperties.ParsedWorldIsPlayable | TreasureHunt/MapParser.cs:16-37 | an accepted map satisfies the invariant the hunt preserves |
| MapParserProperties.OverlapRefused | TreasureHunt/MapParser.cs:178-191 | with mountains and adventurers parsed, the map is refused for overlap exactly when two share a cell |
| MapParserProperties.TreasureLineUnits | TreasureHunt/MapParser.cs:103 | an accepted `T` line gives identical units, all at the line's position |
| MapParserProperties.BoundsDiffer | TreasureHunt/MapParser.cs:163-169 | a cell on the far row or column is walkable for the engine but refused by the parser |
| Results.MapAll | TreasureHunt/MapParser.cs:68-81 | succeeds exactly when every element does; otherwise the first failing element's error |
| Text.Split | TreasureHunt/MapParser.cs:244 | one piece more than separators, none containing the separator |
| Text.IntToString | TreasureHunt/MapSerializer.cs:45 | the interpolated number is non-empty digits, with a `-` exactly when negative, and ends in a digit |
| Scenarios.AdventurerBlocksAdventurer | TreasureHunt/Tests/TreasureHuntServiceTests.cs:178-196 | Sophie is blocked by Lara, who moves on |
| Scenarios.CollectOneOfStack | TreasureHunt/Tests/TreasureHuntServiceTests.cs:233-256 | one unit of a stack of three is collected, two are left |
| Scenarios.EdgeStopsMove | TreasureHunt/Tests/TreasureHuntServiceTests.cs:198-216 | at (5, 0) facing east the adventurer stays |
| Scenarios.MountainStopsMove | TreasureHunt/Tests/TreasureHuntServiceTests.cs:160-175 | a mountain stops the adventurer |
| Scenarios.NegativeCoordinateRefused | TreasureHunt/Tests/MapParserTests.cs:206-213 | `T - -5 - 4` is refused as a negative number |

## Left out

- Program.cs reads a file and writes a file; no file I/O is modelled. Lines come in as a sequence of strings, and text goes out as a string.
- Exception messages are not modelled. Each `InitializationMapException` is an error variant carrying the entity kind and the position where the message names them.
- ParseNumber: `int.Parse` is modelled on optional `+` and decimal digits only. Culture, whitespace forms, overflow and leading signs beyond that are not captured. Its `FormatException` is the `NotANumber` variant, which is not an `InitializationMapException`.
- HasNegativeNumber: the regular expression is stated directly as a character predicate, not through a regex engine.
- MapParser.ParseAdventurerLine: the orientation reads `data[4][0]`. An empty orientation field crashes with `IndexOutOfRangeException` in the code; it is modelled as the `IndexOutOfRange` variant. The same variant models `lines[0]` on an all-comment text.
- MapParser.GenerateAdventurers: objects are built after every line has been checked, not line by line. The result and the error are the same, since construction cannot fail.
- Dictionary and `GroupBy` enumeration order is taken as first occurrence, which is what .NET does for these insert-only uses.
- The serializer header text is kept as constants; its exact characters matter only as comment lines.
- The round trip splits text at `'\n'` only; `\r\n` line endings are not modelled.
- Record copies (`map with { … }`) return the same list object. The model keeps one `Map` object whose treasure list changes in place, so aliasing beyond it is not modelled.
- The null check in the `Adventurer.Position` setter is left out, because Dafny values are never null.
- Private getters (`Adventurer`'s `Name`, `Orientation`, `NbTreasures` and `Instructions`, and `Treasure`'s `Position`) are treated as readable by the services, as the serializer's and the engine's reads of them require.
- RemoveBlankLines: its own ensures say which lines are kept; input order and copies are stated by `MapParserProperties.RemoveBlankLinesInOrder`, because a function's ensures cannot relate its results on two inputs.
- RemoveComments: likewise, input order and copies are stated by `MapParserProperties.RemoveCommentsInOrder`.
- GetLinesOfType: likewise, input order and copies are stated by `MapParserProperties.GetLinesOfTypeInOrder`.
- `Position`, `Dimension`, `Orientation`, `Map` and `InitializationMapException` are not part of this model's C# files. Their shape is taken from their uses.
- Positions and dimensions are unbounded integers, while the C# code uses 32-bit `int`: `X + dx` in `GetAdventurerNewPosition` (TreasureHunt/TreasureHuntService.cs:101-102) wraps at the limits. The two differ only on hand-built maps, such as a width of `int.MaxValue` with an adventurer at `x == int.MinValue` heading West; no parsed or playable map reaches such a state.
- The unit tests are not modelled as a whole. A few of the engine's scenarios and one parser scenario are proved as concrete lemmas. Concrete text scenarios for the parser are too costly for the verifier and are left to the general lemmas.
