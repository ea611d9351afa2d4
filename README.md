# VUK sector-file linter: the validation engine

The linter checks the text files of a VATSIM UK sector-file repository
line by line. Given the path of a file, the engine:

1. walks the path segments backwards to find the key the file's rules are
   filed under (an airport's files keep the part of the path below the
   airport folder, agreement, route, ARTCC and navaid folders give fixed keys);
2. looks the key up first in the single-pattern table and then in the block
   table (an unknown key gives no diagnostics);
3. splits the document on CRLF, skips empty lines and lines starting with
   `;`, cuts an inline `;` comment together with the spaces before it, and
   keeps a running character offset;
4. tests every kept line, either against the key's one pattern or, in block
   mode, against a cyclic list of patterns driven by a cursor
   (`blockIndicator`), and emits a warning diagnostic for each line that fails.

The engine appears twice: `doParse` in server/src/parser.ts, with the rule
catalogue of server/src/constants.ts, and `validateTextDocument` in
server/src/server.ts, fed by the document URI and carrying its own copy of
the catalogue, which differs only in the ARTCC pattern.

The model is split into modules that follow these stages:

- `Wrappers`, `JsString`: `Option`, an `Outcome` that records a JavaScript
  throw, and the string operations the engine uses (`startsWith`, `indexOf`,
  `split`, `join`) with their laws (`join` undoes `split`, `split` of pieces
  joined around a separator).
- `Identity`: the backwards scan as a loop (`ResolvePath`) proved against a
  recursive specification (`Resolve`, `IdentityOf`).
- `Patterns`, `Rules`, `Constants`: each regular expression as a `Pattern`
  with its source text, the two tables of constants.ts and their laws.
- `Scanner`: the preprocessing of a raw line (`Preprocess`, `CutComment`) and
  the scanned lines of a document (`Scan`) with their offsets.
- `Validation`: the single-pattern and block-mode loops (`SingleLines`,
  `BlockLines`, `BlockLine`) proved against the functions
  `SingleDiagnostics` and `BlockRun`, and what those report.
- `Parser`: `doParse` (`DoParse`) as lookup plus the validators, over any
  catalogue (`RunEngine`) and over the catalogue of constants.ts (`Parsed`).
- `Server`: the server's catalogue and `validateTextDocument`.
- `Shapes`, `Aerodrome`: reference definitions of the fixed-width coordinate
  and frequency patterns and of the aerodrome-name pattern, and the
  aerodrome block of `Basic.txt` run with them.

The regex test is a parameter `exec: (Pattern, string) -> bool`, standing
for `pattern.exec(line) !== null`. Every pattern is compiled with the `m`
flag and without `g`, so a test depends only on the pattern and the line.
Diagnostics carry raw character offsets, as in the mode of `doParse` with
`vscode` false (server/src/parser.ts:21-34), the one the standalone linter
uses, where a position is `{line: 0, character: offset}`.

Two behaviours of the code are kept as written. In block mode, after a line
that both tests reject, the cursor stays at the advanced index and the
diagnostic carries the message of the pattern tested first, the one at the
old cursor (server/src/parser.ts:118-134). A line with an inline comment is
reported over `[lineStart + rawLen - keptLen, lineStart + rawLen)`, because
the offset is moved past the cut-off tail before the test
(server/src/parser.ts:111, 131-132); this range ends at the end of the raw
line, not at the end of the kept text.

## Model

| member | source | states |
|---|---|---|
| Identity.IsAnchor | server/src/parser.ts:41-68 | reference definition of the five segments the loop tests: `Airports` (line 41), `Agreements` (45), `ATS%20Routes` (49), `ARTCC` (64) and `Navaids` (68). `LastAnchor` and `ThrowsIffNavaidsLast` are stated with it |
| Identity.IsFixedRouteFolder | server/src/parser.ts:50-58 | reference definition of the route sub-folders that give `ATS Route`: `Other`, `RNAV` and `Conventional%20-%20Non-UK`. `FolderIdentity` is stated with it |
| Identity.LastAnchor | server/src/parser.ts:40-75 | the index found is an anchor segment with no anchor after it; `None` exactly when the path holds no anchor |
| Identity.LastAnchorAt | server/src/parser.ts:40-75 | an anchor with no later anchor is the one the backwards scan stops at |
| Identity.ApplyAnchor | server/src/parser.ts:41-74 | reference definition of one anchor's branch: the `Airports` slice, empty when fewer than two segments follow; the fixed keys; the unchanged path under an unknown route folder; the throw when `Navaids` is last. `StopAt` and `NavaidIdentity` are proved against it |
| Identity.Resolve | server/src/parser.ts:40-75 | reference definition of the scan: the last anchor's branch decides, and a path without anchors is kept. `ResolvePath` is proved equal to it |
| Identity.IdentityOf | server/src/parser.ts:40-77 | reference definition of the key: `Resolve`, then `join('/')`, with the throw passed on. The identity lemmas below state what it gives |
| Identity.StopAt | server/src/parser.ts:41-67 | the branches for `Airports`, `Agreements`, `ATS%20Routes` and `ARTCC` leave the segment list `ApplyAnchor` gives for that anchor |
| Identity.ResolvePath | server/src/parser.ts:40-75 | the reverse loop, with `path` reassigned and the non-breaking `Navaids` branch, computes `Resolve`: the last anchor decides, and a `Navaids` last segment throws |
| Identity.AirportFileIdentity | server/src/parser.ts:41-44 | below the last `Airports` anchor, the key is the segments after the airport folder joined by `/`, and it is empty for a path ending in `Airports` |
| Identity.FolderIdentity | server/src/parser.ts:45-67 | `Agreements` gives `Agreement`, `ARTCC` gives `ARTCC`, a route folder gives `ATS Route` or `ATS Route Heli` by its sub-folder, and any other sub-folder leaves the whole path as the key |
| Identity.NavaidIdentity | server/src/parser.ts:68-74 | a `Navaids` folder gives `Fixes` when the next segment starts with `FIXES` or `Fixes` and `NDBVOR` otherwise, when no anchor comes after the folder, whatever segments lie above it |
| Identity.ThrowsIffNavaidsLast | server/src/parser.ts:68-69 | the resolver throws exactly when the last segment is `Navaids` |
| Identity.AnchoredKeys | server/src/parser.ts:45-77 | an anchor other than `Airports` yields one of the six fixed keys or the whole path joined |
| Identity.AirportBasicExample | server/src/parser.ts:41-44 | `.../Airports/EGLL/Basic.txt` resolves to `Basic.txt` |
| Identity.AirportSmrExample | server/src/parser.ts:41-44 | `.../Airports/EGLL/SMR/Geo.txt` resolves to `SMR/Geo.txt` |
| Identity.AgreementExample | server/src/parser.ts:45-47 | an agreement file resolves to `Agreement` |
| Identity.HelicopterExample | server/src/parser.ts:59-61 | a helicopter route file resolves to `ATS Route Heli` |
| Identity.FixesExample | server/src/parser.ts:68-70 | `Navaids/FIXES_UK.txt` resolves to `Fixes` |
| Identity.NdbVorExample | server/src/parser.ts:71-73 | any other navaid file resolves to `NDBVOR` |
| Identity.NavaidsLastExample | server/src/parser.ts:69 | a path ending in `Navaids` throws |
| JsString.StartsWith | server/src/parser.ts:69 | reference definition of `startsWith`: the prefix is no longer than the text and equals its front; also used for the `;` test at parser.ts:98 and 148, and `Scanner.Retained` states its effect there |
| JsString.Join | server/src/parser.ts:77 | reference definition of `join`: the pieces with the separator between them, `""` for no pieces. `JoinSplit` and `SplitJoin` relate it to `Split` |
| JsString.IndexOf | server/src/parser.ts:105 | the first index of the character, or -1 exactly when it does not occur |
| JsString.Split | server/src/parser.ts:94 | splitting always gives at least one piece |
| JsString.JoinSplit | server/src/parser.ts:94 | joining the pieces of a split with the separator gives back the text, so raw offsets index the original document |
| JsString.SplitJoin | server/src/server.ts:252 | splitting pieces that hold no `/` after joining them with `/` gives the pieces back |
| JsString.SplitAround | server/src/server.ts:252 | a split around one separator is the split of each side |
| JsString.SplitWithout | server/src/server.ts:252 | text without the separator splits into itself |
| Patterns.Source | server/src/constants.ts:1-130 | documentation only: the text of each regular expression of the catalogue, which no proof reads; the validators take the test as the parameter `exec` |
| Constants.LineRequirement | server/src/constants.ts:7-85 | the pattern and message of each of the eighteen single-pattern entries; `LineRequirements` is the table built from it |
| Rules.BlocksNonEmpty | server/src/parser.ts:15-18 | every block list of a catalogue (the `DiagnosticData` records of parser.ts:15-18 in the two maps of lines 36-37) has an entry at index 0, which `blockRequirements[blockIndicator]` at line 115 reads first. `Constants.Tables` and `Server.ServerTables` establish it |
| Constants.LineRequirements | server/src/constants.ts:7-85 | the single-pattern table has exactly the eighteen keys |
| Constants.BlockLineRequirement | server/src/constants.ts:87-130 | every block list has two or three patterns |
| Constants.BlockLineRequirements | server/src/constants.ts:87-130 | the block table has exactly the three keys |
| Constants.KeysDisjoint | server/src/constants.ts:7-130 | no key is in both tables |
| Constants.BlockSizes | server/src/constants.ts:87-129 | `SMR/Regions.txt` has 3 patterns, `Ground_Network.txt` 2, `Basic.txt` 3 |
| Constants.FixedKeysListed | server/src/constants.ts:58-83 | every key the resolver produces on its own has a single-pattern entry |
| Constants.Tables | server/src/constants.ts:7-130 | the catalogue has exactly the two key sets and every block list is non-empty, so cursor index 0 exists |
| Scanner.SpacesBefore | server/src/parser.ts:106-108 | the walk back over spaces never passes its start |
| Scanner.SpacesBeforeFacts | server/src/parser.ts:106-108 | the walk passes only spaces and stops at a non-space or at the start of the line |
| Scanner.StripComment | server/src/parser.ts:105-112 | the kept text is no longer than the raw line |
| Scanner.StripCommentFacts | server/src/parser.ts:105-112 | the kept text is a prefix of the raw line; without `;` it is the whole line; with one it holds no `;`, does not end in a space, and only spaces lie between it and the first `;` |
| Scanner.CutComment | server/src/parser.ts:105-110 | the `while` loop over the spaces before the first `;` cuts the line to `StripComment` |
| Scanner.Retained | server/src/parser.ts:95-101 | a raw line is skipped exactly when it is empty or starts with `;`, and is otherwise kept with its comment cut |
| Scanner.SpacesThenComment | server/src/parser.ts:105-112 | a line of spaces and then `;` is not skipped: it is kept as the empty string and still tested |
| Scanner.Preprocess | server/src/parser.ts:95-112 | one raw line's preprocessing: a skipped line moves the offset by its length plus 2, a kept line by the length of the cut-off tail |
| Scanner.RawOffset | server/src/parser.ts:94-140 | reference definition of the running offset: each raw line before counts its length plus 2. `LineStartIsRawOffset` and `RawLineInText` state what it means |
| Scanner.LineAt | server/src/parser.ts:95-133 | reference definition of one raw line's result: nothing when it is skipped, else its kept text over `[lineStart + rawLen - keptLen, lineStart + rawLen)` |
| Scanner.ScanLines | server/src/parser.ts:94-141 | reference definition of the lines the validators see, one per retained raw line in order. `ScanLinesFromRaw`, `ScanLinesOrdered` and `ScanLinesComplete` state what it gives |
| Scanner.FromRaw | server/src/parser.ts:94-141 | reference definition of a scanned line's origin: a retained raw line, its kept text, and a range ending where the raw line ends. `ScanLinesFromRaw` is stated with it |
| Scanner.Ordered | server/src/parser.ts:94-141 | reference definition of line order: forward ranges, raw order, and at least a terminator between lines. `ScanLinesOrdered` is stated with it |
| Scanner.OffsetStep | server/src/parser.ts:96-140 | one more raw line moves the offset count by its length plus 2 |
| Scanner.ScanStep | server/src/parser.ts:94-141 | one more raw line adds at most its own line to the scan |
| Scanner.LineAtRetained | server/src/parser.ts:105-133 | a retained line is no longer than its raw line and is scanned with the range `[lineStart + rawLen - keptLen, lineStart + rawLen)` |
| Scanner.SkipStep | server/src/parser.ts:95-101 | a skipped raw line (`continue`) adds nothing to the scan |
| Scanner.KeepStep | server/src/parser.ts:103-133 | a retained raw line adds exactly its line to the scan |
| Scanner.Scan | server/src/parser.ts:94-112 | `ScanLines` of the document split on CRLF. `LinesInText` places its lines in the document |
| Scanner.ScanLinesFromRaw | server/src/parser.ts:94-141 | every scanned line comes from a retained raw line, carries its kept text, and its range ends where the raw line ends |
| Scanner.ScanLinesOrdered | server/src/parser.ts:94-141 | scanned lines come in raw-line order, each range running forwards and at least a terminator before the next |
| Scanner.ScanLinesComplete | server/src/parser.ts:94-141 | every retained raw line reaches the validators |
| Scanner.RawOffsetFront | server/src/parser.ts:96-140 | the offset count is additive over the raw lines from the front too |
| Scanner.RawLineInText | server/src/parser.ts:94 | raw line `k` sits in the document at the sum of length plus 2 over the raw lines before it |
| Scanner.FromRawInJoin | server/src/parser.ts:105-112 | a scanned line's range covers the last characters of its raw line in the document, as many as its kept text has |
| Scanner.LineInText | server/src/parser.ts:105-112 | the same, for one line of a document |
| Scanner.LinesInText | server/src/parser.ts:105-133 | every diagnostic range is `[lineStart + rawLen - keptLen, lineStart + rawLen)`, inside the text, and is the kept text itself when the line has no comment |
| Scanner.LineStartIsRawOffset | server/src/parser.ts:94-178 | every raw line, whatever branch it takes, moves the offset by its length plus 2, so a line starts at the sum of length plus 2 over the raw lines before it |
| Validation.Warn | server/src/parser.ts:128-136 | reference definition of the `Diagnostic` literal built in both modes (lines 128-136 and 167-175): a `Warning` over the line's range with the given message and the source `VUK SF Linter`. `SingleDiagnosticsSound` and `BlockDiagnosticsSound` state its fields |
| Validation.DiagnosticsOrdered | server/src/parser.ts:81-182 | reference definition of document order for the pushed diagnostics: forward ranges, each ending before the next starts. `SingleOrdered` and `BlockOrdered` are stated with it |
| Validation.SingleDiagnostics | server/src/parser.ts:143-179 | reference definition of single mode: one warning, in order, for each line the pattern rejects. The three lemmas below characterise it |
| Validation.SingleAppend | server/src/parser.ts:165-177 | one more line adds its warning exactly when the pattern rejects it |
| Validation.SingleLine | server/src/parser.ts:165-177 | one line's test in single mode: a `Warning` with the requirement's message over the line's range exactly when the pattern rejects the line, and nothing otherwise |
| Validation.SingleDiagnosticsSound | server/src/parser.ts:165-177 | single mode reports only lines the pattern rejects, each as a `Warning` with the requirement's message and the source `VUK SF Linter` |
| Validation.SingleDiagnosticsComplete | server/src/parser.ts:165-177 | single mode reports every line the pattern rejects |
| Validation.SingleDiagnosticsExact | server/src/parser.ts:165-177 | a scanned line is reported exactly when the pattern rejects it |
| Validation.SingleOrdered | server/src/parser.ts:143-179 | single-mode diagnostics come in document order without overlap |
| Validation.SingleSkipStep | server/src/parser.ts:145-151 | a skipped raw line adds no single-mode diagnostic |
| Validation.SingleKeepStep | server/src/parser.ts:153-178 | a retained raw line adds its warning exactly when the pattern rejects its kept text |
| Validation.SingleLines | server/src/parser.ts:143-179 | the single-pattern loop with its running offset computes `SingleDiagnostics` of the scanned lines |
| Validation.SingleMode | server/src/parser.ts:143-179 | single mode over a document: split on CRLF, then the loop |
| Validation.Advance | server/src/parser.ts:118-122 | the cursor moves to `(c + 1) mod n` and stays below `n` |
| Validation.Previous | server/src/parser.ts:126 | the previous index is the inverse of the advance |
| Validation.Rejected | server/src/parser.ts:116-125 | reference definition of a doubly rejected line: the pattern at the cursor and the one after it both fail. The block lemmas are stated with it |
| Validation.BlockStep | server/src/parser.ts:115-139 | the cursor stays when its pattern accepts the line and advances otherwise, whatever the retest gives; a diagnostic, with the message at the old cursor, only when both tests fail |
| Validation.BlockRun | server/src/parser.ts:92-141 | the cursor stays below the list's length and there are no more diagnostics than lines; the start at 0 is `CursorLaw`, and one diagnostic per line at most follows from `BlockDiagnosticsSound` |
| Validation.CursorBefore | server/src/parser.ts:92-141 | the cursor when a line is tested is a valid index |
| Validation.CursorLaw | server/src/parser.ts:92-122 | the cursor is 0 before the first line and moves only by the cycle |
| Validation.CursorPrefix | server/src/parser.ts:92-141 | a later line does not change the cursor at any earlier line |
| Validation.BlockDiagnosticsSound | server/src/parser.ts:115-139 | block mode reports only lines on which both tests fail, with the message of the pattern the cursor pointed to before the line |
| Validation.BlockDiagnosticsComplete | server/src/parser.ts:115-139 | block mode reports every line on which both tests fail |
| Validation.BlockDiagnosticsExact | server/src/parser.ts:115-139 | a scanned line is reported exactly when both its tests fail |
| Validation.BlockWithin | server/src/parser.ts:128-137 | block diagnostics run forwards and end by the last line's end |
| Validation.BlockOrdered | server/src/parser.ts:92-141 | block-mode diagnostics come in document order without overlap |
| Validation.OrderedAppend | server/src/parser.ts:137 | pushing an ordered run of diagnostics after one that ends before it keeps the list in document order |
| Validation.BlockOfOneIsSingle | server/src/parser.ts:115-139 | with one pattern, block mode retests the same pattern and reports exactly what single mode reports |
| Validation.BlockSkipStep | server/src/parser.ts:95-101 | a skipped raw line leaves the block cursor and diagnostics as they are |
| Validation.BlockKeepStep | server/src/parser.ts:103-140 | a retained raw line takes the block state one `BlockStep` on its line |
| Validation.BlockLine | server/src/parser.ts:115-139 | one line's test, advance, retest and previous-index message compute `BlockStep` |
| Validation.BlockLines | server/src/parser.ts:92-141 | the block loop with its offset and cursor computes `BlockRun` of the scanned lines |
| Validation.BlockMode | server/src/parser.ts:92-141 | block mode over a document: split on CRLF, then the loop |
| Validation.BlockCycleExample | server/src/parser.ts:115-139 | in a three-pattern cycle, a line both tests reject is reported with the message at the old cursor and moves the cursor on |
| Parser.RulesOf | server/src/parser.ts:84-89 | reference definition of the requirements a key is filed under: its single entry, else its block list, else none. `LintedIffKnown` and `LintSound` are stated with it |
| Parser.Lint | server/src/parser.ts:84-89 | reference definition of the lookup: the single-pattern entry first, then the block entry, else `None`. `SinglePriority`, `LintedIffKnown` and `LintSound` state what it gives |
| Parser.Engine | server/src/parser.ts:40-183 | reference definition of the engine over a catalogue: the resolver's throw, or `Lint` of the key |
| Parser.Parsed | server/src/parser.ts:20-183 | reference definition of `doParse` with the catalogue of constants.ts: an unknown key gives the empty list. The `Parser` lemmas below state what it returns |
| Parser.LintText | server/src/parser.ts:84-89 | the lookup in the single-pattern table, then the block table, runs the matching validator, or gives None |
| Parser.RunEngine | server/src/parser.ts:40-183 | resolve, join with `/`, look up and validate, over any catalogue |
| Parser.DoParse | server/src/parser.ts:20-183 | `doParse` computes `Parsed`: the resolver's throw, else the diagnostics of the key, else the empty list |
| Parser.SinglePriority | server/src/parser.ts:84-86 | a key with a single-pattern entry is linted in single mode whatever the block table holds |
| Parser.LintedIffKnown | server/src/parser.ts:84-89 | a key is linted exactly when one of the tables has it |
| Parser.LintSound | server/src/parser.ts:115-177 | in both modes the diagnostics are warnings with the linter's label and one of the key's messages, each covering a scanned line inside the document, in document order |
| Parser.FixedKeysLinted | server/src/parser.ts:84 | with constants.ts, each fixed key is linted line by line with its own pattern |
| Parser.BlockKeysLinted | server/src/parser.ts:86-92 | with constants.ts, the three block keys are linted in block mode with their lists |
| Parser.UnknownKeyQuiet | server/src/parser.ts:87-89 | with constants.ts, an unknown key gives the empty list whatever the document holds |
| Parser.ParseThrowsIffNavaidsLast | server/src/parser.ts:68-69 | `doParse` throws exactly when the last segment is `Navaids` |
| Parser.AirportBasicLinted | server/src/constants.ts:116-129 | an aerodrome's `Basic.txt` is linted in block mode with the name, position and frequency patterns |
| Server.ServerBlockLineRequirement | server/src/server.ts:198-241 | every block list of the server's catalogue has two or three patterns |
| Server.ServerTables | server/src/server.ts:118-244 | the server's catalogue has the same key sets as constants.ts and non-empty block lists |
| Server.ServerLineRequirement | server/src/server.ts:118-196 | the eighteen single-pattern entries of server.ts, with its own ARTCC pattern; `LineTablesAgree` and `CataloguesDiffer` compare it with constants.ts |
| Server.Published | server/src/server.ts:250-397 | reference definition of one call: the diagnostics it sends, `None` where it returns without sending, and `Threw` where the resolver raises and the returned promise rejects. `ServerMatchesParser` relates it to `doParse` |
| Server.ValidateTextDocument | server/src/server.ts:250-397 | `validateTextDocument` computes `Published`: the URI split on `/`, then the shared engine with the server's catalogue |
| Server.LineTablesAgree | server/src/server.ts:118-196 | the server's single-pattern table agrees with constants.ts on every key but ARTCC |
| Server.BlockTablesAgree | server/src/server.ts:198-241 | the server's block table equals the one of constants.ts |
| Server.CataloguesDiffer | server/src/server.ts:183-186 | the two catalogues agree on every entry but ARTCC, which names another pattern under the same message |
| Server.LintAgrees | server/src/server.ts:297-393 | for every key but ARTCC the server lints a document as `doParse` does |
| Server.ServerMatchesParser | server/src/server.ts:252-302 | unless the file is an ARTCC file, the promise the server returns rejects when `doParse` throws, publishes what `doParse` returns, and publishes nothing only where `doParse` returns the empty list |
| Server.NotPublishedIffUnknown | server/src/server.ts:297-302 | the server returns before sending exactly when neither table knows the key |
| Server.ArtccLinted | server/src/server.ts:183-186 | an ARTCC file is linted line by line with the server's own pattern |
| Server.AirportUriSegments | server/src/server.ts:251-252 | a URI ending in `/Airports/<airport>/Basic.txt` splits into the prefix's segments and those three |
| Server.ServerBlockKeysLinted | server/src/server.ts:297-354 | the three block keys are linted in block mode with the server's lists |
| Server.AirportUriLinted | server/src/server.ts:251-255 | a URI ending in `/Airports/<airport>/Basic.txt` is linted with the aerodrome block, whatever comes before |
| Shapes.Digits | server/src/constants.ts:1-2 | reference definition of `[0-9]{count}` as a piece |
| Shapes.PieceSlots | server/src/constants.ts:1-2 | reference definition of the characters one piece allows, position by position: `count` copies of its class, or its one literal |
| Shapes.Slots | server/src/constants.ts:1-5 | reference definition of the characters a shape allows, position by position. The shape constants `Lat`, `Lon` (lines 1-2), `SpaceCoordinate`, `ColonCoordinate` (4-5), `CoordinatePair` (line 17), `AirbandFrequency` and `NoFrequency` (126) are read through it; `LatSlots` and `FrequencySlots` give their slots |
| Shapes.Fits | server/src/constants.ts:1-5 | reference definition of what an anchored fixed-width pattern matches on a line without line terminators: one allowed character per position. Every `Shapes` and `Aerodrome` contract about coordinates and frequencies is read through it |
| Shapes.NoTerminators | server/src/constants.ts:118 | reference definition of a line without `\n`, `\r`, U+2028 or U+2029, the characters at which the `m` flag lets `^` and `$` match and `.` stop |
| Shapes.FrequencyAccepts | server/src/constants.ts:126 | reference definition of the frequency pattern on a line without line terminators: an airband frequency or `000.000`. `FrequencyAccepted` and `FrequencyRejected` give instances |
| Shapes.NameAccepts | server/src/constants.ts:118 | reference definition of the name pattern: a non-empty line without line terminators that starts neither with `1` nor with `N0`. `NameExcludes` and `NameExample` state what it rejects |
| Shapes.SlotsAppend | server/src/constants.ts:4-5 | the slots of two shapes in a row are the first's followed by the second's, as the template concatenations of lines 4-5 build them |
| Shapes.FitsAppend | server/src/constants.ts:4-5 | a string fits two shapes in a row exactly when its front fits the first and the rest the second |
| Shapes.LatWidth | server/src/constants.ts:1-2 | a latitude or longitude match is exactly 14 characters |
| Shapes.CoordinateWidths | server/src/constants.ts:4-5 | a space or colon coordinate is 29 characters, a pair of coordinates 59 |
| Shapes.PairSplits | server/src/constants.ts:17 | a centreline or helicopter-route line is exactly two space coordinates with one space between them |
| Shapes.CoordinateSplits | server/src/constants.ts:4 | a space coordinate is a latitude, a space and a longitude |
| Shapes.LatSlots | server/src/constants.ts:1 | the characters a latitude allows, position by position |
| Shapes.LatLayout | server/src/constants.ts:1 | a latitude is `N` or `S`, then digits grouped 3.2.2.3 with dots at 4, 7 and 10 |
| Shapes.LatExample | server/src/constants.ts:1 | `N051.28.29.000` is a latitude, `N51.28.29.000` is not |
| Shapes.FrequencySlots | server/src/constants.ts:126 | the characters the two frequency alternatives allow |
| Shapes.FrequencyAccepted | server/src/constants.ts:126 | `118.505`, `121.775` and `000.000` are frequencies |
| Shapes.FrequencyRejected | server/src/constants.ts:126 | `199.998`, `118.503` and `118.50` are not |
| Shapes.NameExcludes | server/src/constants.ts:118 | the name pattern takes no airband frequency and no position starting `N0` |
| Shapes.NameExample | server/src/constants.ts:118 | `EGLL Heathrow` is a name; neither a `1` after a lone `\n` nor a position starting `N0` is |
| Aerodrome.ShapeTest | server/src/constants.ts:116-129 | reference `exec` for the aerodrome block: the name, position and frequency patterns by their shapes, on lines without line terminators; the corollaries of `BasicRun` are stated under it |
| Aerodrome.OpeningShapes | server/src/constants.ts:116-124 | under the shapes, the name pattern takes a name and not a position starting `N0`, and the position pattern takes the position |
| Aerodrome.BasicRun | server/src/parser.ts:115-139 | name, position, third line: the cursor ends on the frequency pattern, and the third line is reported, with the position's message, exactly when the frequency pattern rejects it |
| Aerodrome.WellFormedAerodrome | server/src/constants.ts:116-129 | under the reference shapes, a name without line terminators, a position starting `N0` and an airband frequency raise nothing |
| Aerodrome.BadFrequencyReportedAsPosition | server/src/parser.ts:124-134 | under the reference shapes, a third line without line terminators that is neither a position nor a frequency is reported as `Invalid aerodrome position`, not as an invalid frequency |

## Left out

- The language-server plumbing (connection, initialisation, capabilities, completion, watched files) and `connection.sendDiagnostics`: I/O through a library. `Published` returns the diagnostics that would be sent, or `None` where the server returns without sending.
- The `async` wrapper of `validateTextDocument`: the resolver's `TypeError` becomes a rejected promise, which the `onDidChangeContent` handler (server/src/server.ts:102-105) does not await. `Published` records it as `Threw`; what happens to the unhandled rejection is left out.
- `textDocument.positionAt`: a library conversion from offsets to line and character. The model keeps raw offsets, as `posAt` gives them when `vscode` is false.
- Regular-expression semantics in general: each pattern is an opaque test `exec`. With the `m` flag, a lone `\n` left in a line after splitting on CRLF lets `^` and `$` match inside the line; the opaque test absorbs this. `Shapes` describes only lines without line terminators: `Fits` allows none, and `NameAccepts` requires `NoTerminators`.
- `Shapes`: the pieces are written from the pattern texts in `Patterns`, but no lemma connects a `Pattern`'s source text to its shape. The patterns with look-ahead, back-references, lazy quantifiers or alternation over free text (airspace, positions, SIDs, STARs, agreements, ARTCC, routes) have no reference definition.
- Server.CataloguesDiffer: shows that the ARTCC entries name different `Pattern`s, not that the two source texts differ as strings.
- Server.ValidateTextDocument: runs the same engine methods as `doParse` rather than its own copy of the loops, because the two copies are identical statement for statement except for where the text and segments come from, the return without sending, and the conversion of offsets with `textDocument.positionAt` (server/src/server.ts:344-345, 383-384), which the model leaves out as above.
- The empty `doParse` stub in server/src/server.ts, and commented-out code.
- standalone-linter/linter.ts is not part of this model: the directory walk, file reads and console output. Its paths come from splitting Windows paths on `\`, so a folder appears as `ATS Routes` and never matches the URI-encoded anchor `ATS%20Routes`. That mismatch lives in the driver, not in the engine.
- UTF-16 code units: strings are sequences of characters.
