# Xiangqi move notation, rule tables and replay cursor

This project models the core of a xiangqi (Chinese chess) game viewer in Dafny. It covers four
things:

- **Reading Chinese move notation** (`src/move-parser.js`). `parseMove` turns `炮二平五`,
  `马8进7` or `前车进一` into a move descriptor; the ply index's parity gives the colour.
  `findCoordinates` scans a 10x9 board (`board[y][x]`) for the pieces the notation may mean,
  narrows them with 前/后, computes each one's destination from the action and target, and
  returns the first whose destination passes the resolver's own `isValidTarget`. `toNotation`
  writes a resolved move back as text.
- **The legality rule table** (`dist/src/rules/piece-rules.js`): one guard chain per piece
  type over a `[row][col]` board whose cells hold a type letter, each answering valid or the
  first reason the move fails. The king rule includes the flying-general search.
- **The validator** (`dist/src/rules/validator.js`): bounds, same square, empty origin and
  friendly capture, in that order, then dispatch on the type letter.
- **Replay navigation** (`dist/src/game-browser.js`): `GameCollection`, a cursor over the
  current game's move list, and the small `MoveParser` of that file.

Modules:

- `board.dfy` (Board): cells, the grid and the count of pieces between two squares. Both rule
  tables share it.
- `notation.dfy` (Notation): numerals, glyph tables, trimming, `parseMove` and `toNotation`.
- `resolver.dfy` (Resolver): `isValidTarget`, the candidate scan, the 前/后 choice, the
  destination table and `findCoordinates`.
- `piece_rules.dfy` (PieceRules): the per-piece rules. The king's search and counting loops
  are methods proved against a specification function.
- `validator.dfy` (Validator): `validateMove` and its properties.
- `rule_tables.dfy` (RuleTables): where the two independent rule tables agree and where they
  differ.
- `game_browser.dfy` (GameBrowser): `GameCollection` as a class with its fields, and the loose
  notation reader of that file.

The board is a value (`seq<seq<Option<Piece>>>`). Nothing in the two rule tables writes to it,
so `validateMove` and `findCoordinates` leave it unchanged by construction. A piece's type is
one character: the resolver's boards hold glyphs (`車`, `俥`, ...), the validator's hold
letters (`R`, `N`, ...). A JavaScript `null` or `undefined` result is `None`. A reason string
of the rule table is a constructor of `PieceRules.Reason`.

The resolver's destination table takes an `ElephantRule`. With `SourceFormula` it computes what
`findCoordinates` computes, including the elephant's file formula reported under Findings; with
`NotatedColumn` the elephant's 进 lands on the notated column, the corrected rule.

## Model

| member | source | states |
|---|---|---|
| Notation.NumeralValue | src/move-parser.js:8-13 | chineseToNum gives 一..九 and 1..9 a value, always in 1..9 |
| Notation.NumToChinese | src/move-parser.js:16 | numToChinese is empty at 0 and at n in 1..9 a single numeral that reads back as n |
| Notation.NumeralsAgree | src/move-parser.js:8-13 | the Chinese numeral and the Arabic digit for n both read as n |
| Notation.IsPatternPiece | src/move-parser.js:59-60 | every glyph the two patterns accept names an archetype in pieceMap |
| Notation.PieceOf | src/move-parser.js:19-27 | pieceMap, the eighteen glyphs and their archetypes; no contract of its own: GlyphsNameTheirKind, IsPatternPiece and Resolver.UnifiedTypeAgreesWithPieceMap characterise it |
| Notation.ActionOf | src/move-parser.js:59-60 | the 平/进/退 class of both patterns; no contract of its own: ParseMove and ParseMoveReadsFields tie it to the third character |
| Notation.PrefixOf | src/move-parser.js:60 | the 前/后 class of the second pattern; no contract of its own: PrefixCharacters characterises it |
| Notation.MatchesExplicit | src/move-parser.js:59 | the anchored first pattern; no contract of its own: ParseMove and ParseMoveReadsFields state what a match yields |
| Notation.MatchesPrefixed | src/move-parser.js:60 | the anchored second pattern; no contract of its own: ParseMove and ParseMoveReadsFields state what a match yields |
| Notation.MentionsResult | src/move-parser.js:78 | the 胜/和/优 test for a result; no contract of its own: ParseMove states when it gives a result descriptor |
| Notation.IsWhite | src/move-parser.js:51 | the characters trim removes; no contract of its own: TrimStart and TrimEnd state what is removed |
| Notation.TrimStart | src/move-parser.js:51 | removes exactly the leading white space: the rest is a suffix that starts with a non-white character |
| Notation.TrimEnd | src/move-parser.js:51 | removes exactly the trailing white space: the rest is a prefix that ends with a non-white character |
| Notation.Trim | src/move-parser.js:51 | notation.trim() as the two halves in turn; no contract of its own: TrimStart, TrimEnd and TrimIdentity characterise it |
| Notation.IsRedPly | src/move-parser.js:54 | even plies are red's; no contract of its own: ParseMove and ParseDependsOnParityOnly state its use |
| Notation.ParseMove | src/move-parser.js:46-117 | empty text is null; text matching neither pattern is a result descriptor iff it mentions 胜/和/优, and null otherwise; a move has its colour from the ply parity, the trimmed text, a target in 1..9 read from its numeral and a glyph of its archetype; it has a file in 0..8 exactly when no 前/后 prefix is given |
| Notation.ParseMoveReadsFields | src/move-parser.js:62-117 | in the explicit form the glyph, column, action and target come from the trimmed text's first to fourth characters, the column read as a file of the mover's side; in the 前/后 form the prefix comes from the first character, the glyph, action and target from the next three, and there is no column |
| Notation.PrefixCharacters | src/move-parser.js:60 | 前 is the only character read as the front prefix and 后 the only one read as the back prefix |
| Notation.ParseDependsOnParityOnly | src/move-parser.js:54 | two ply indices of the same parity give the same result for any text |
| Notation.ExplicitColumnFile | src/move-parser.js:91-94 | an explicit column n reads as file 9-n for red and n-1 for black |
| Notation.ColumnToFile | src/move-parser.js:94 | column n to file 9-n for red, n-1 for black; no contract of its own: ExplicitColumnFile and ColumnFileRoundTrip characterise it |
| Notation.FileToColumn | src/move-parser.js:427 | file x to column 9-x for red, x+1 for black; no contract of its own: ColumnFileRoundTrip proves it the inverse of ColumnToFile |
| Notation.ColumnFileRoundTrip | src/move-parser.js:93 | column-to-file and file-to-column are inverse bijections between 1..9 and 0..8 for each colour |
| Notation.GlyphsNameTheirKind | src/move-parser.js:19-38 | the red and black glyph of each archetype map back to that archetype in pieceMap |
| Notation.RedGlyph | src/move-parser.js:30-38 | the red column of pieceToChinese; no contract of its own: GlyphsNameTheirKind maps it back through pieceMap |
| Notation.BlackGlyph | src/move-parser.js:30-38 | the black column of pieceToChinese; no contract of its own: GlyphsNameTheirKind maps it back through pieceMap |
| Notation.NotationAction | src/move-parser.js:435 | 进 when the move goes toward the opponent, else 退; no contract of its own: ToNotationRoundTrip states the direction it encodes |
| Notation.ToNotationAsWritten | src/move-parser.js:420-448 | the written text is four characters starting with the red glyph, whatever the mover's colour |
| Notation.NotationGlyph | src/move-parser.js:425 | the corrected glyph is one parseMove's patterns accept and names the piece's archetype |
| Notation.NotationText | src/move-parser.js:426-447 | a real move is written as four characters starting with the chosen glyph |
| Notation.ToNotation | src/move-parser.js:420-448 | with the corrected glyph the text is four characters whose first one the patterns accept |
| Notation.ToNotationRoundTrip | src/move-parser.js:420-448 | written notation read back at a ply of the mover's colour gives the archetype and the origin file; 平 exactly when the rank is kept; whenever the rank changes, 进 exactly toward the opponent and 退 away, on or off the file; on a file the step count; off a file a column naming the destination file |
| Notation.NotationCharNotWhite | src/move-parser.js:51 | piece glyphs and numerals are not removed by trim |
| Notation.TrimIdentity | src/move-parser.js:51 | non-empty text with no white space at either end loses nothing at either end, so it is its own trim |
| Notation.ToNotationAsWrittenUnreadable | src/move-parser.js:425 | a red rook leaving the right corner is written 俥九进一, which parseMove rejects |
| Notation.RedRookTextUnreadable | src/move-parser.js:59-83 | 俥九进一 matches neither pattern and mentions no result, so it parses to null |
| Resolver.ColorOf | src/move-parser.js:129 | the colour is red exactly when isRed |
| Resolver.UnifiedType | src/move-parser.js:381-388 | getUnifiedPieceType's fourteen entries; no contract of its own: UnifiedTypeAgreesWithPieceMap characterises it |
| Resolver.IsInPalace | src/move-parser.js:408-415 | a palace square is on the board and on its owner's side of the river (ranks 5..9 for red, 0..4 for black) |
| Resolver.UnifiedTypeAgreesWithPieceMap | src/move-parser.js:381-388 | getUnifiedPieceType agrees with pieceMap where it has an entry; the glyphs it lacks are exactly 将, 帅, 车 and 马 |
| Resolver.PalacesMirror | src/move-parser.js:408-415 | the red palace is the black one reflected across the river |
| Resolver.Friendly | src/move-parser.js:314-315 | the destination holds a piece of the mover's colour; no contract of its own: IsValidTarget and OwnSquareNeverValid state its effect |
| Resolver.IsValidTarget | src/move-parser.js:311-379 | an accepted destination is on the board, not friendly, and its origin holds a piece |
| Resolver.RookTarget | src/move-parser.js:327-329 | a rook's destination is accepted iff on the board, not friendly, on its row or file, with every square between empty |
| Resolver.CannonTarget | src/move-parser.js:341-348 | a cannon's destination is accepted iff on the board, not friendly, on its row or file, with exactly one piece between when it captures and none between when the square is empty |
| Resolver.KingTarget | src/move-parser.js:350-352 | a king's destination is accepted iff on the board, not friendly, one orthogonal step away and inside its own palace |
| Resolver.AdvisorTarget | src/move-parser.js:354-356 | an advisor's destination is accepted iff on the board, not friendly, one diagonal step away and inside its own palace |
| Resolver.ElephantTarget | src/move-parser.js:358-364 | an elephant's destination is accepted iff on the board, not friendly, two diagonal steps away, on its own side of the river, with the eye square between empty |
| Resolver.HorseTarget | src/move-parser.js:331-339 | a horse's destination is accepted iff on the board, not friendly, L-shaped, and the leg square (the midpoint of the long side) is empty |
| Resolver.PawnTarget | src/move-parser.js:366-374 | a pawn's destination is accepted iff on the board, not friendly, one orthogonal step away, and then only the forward step on its file before the river, any step but the backward one after crossing; so an accepted pawn move never goes toward its own side |
| Resolver.SimplifiedGlyphUnchecked | src/move-parser.js:376-377 | a piece stored as 车 gets no shape check: any on-board, non-friendly destination passes |
| Resolver.CountPiecesBetween | src/move-parser.js:390-406 | the loops count exactly the occupied squares strictly between two squares on a shared file or rank, and 0 otherwise |
| Resolver.SquareOf | src/move-parser.js:133-134 | square index y*9+x of the nested scan gives back rank y and file x |
| Resolver.Matches | src/move-parser.js:135-141 | the scan's test of one square; no contract of its own: CandidatesBeforeMatch and CandidatesBeforeComplete characterise it |
| Resolver.CandidatesBefore | src/move-parser.js:133-144 | the matches among the first k squares scanned; no contract of its own: CandidatesBeforeMatch, CandidatesBeforeOrdered, CandidatesBeforeComplete and CandidatesStep characterise it |
| Resolver.CandidatesStep | src/move-parser.js:133-141 | scanning square y*9+x appends that square exactly when it matches |
| Resolver.Candidates | src/move-parser.js:131-144 | the candidates after the whole board is scanned; no contract of its own: the CandidatesBefore lemmas at the full board and CollectCandidates characterise it |
| Resolver.CandidatesBeforeMatch | src/move-parser.js:133-144 | every candidate is an on-board square holding the recorded piece, of the archetype and colour, on the explicit file when there is one |
| Resolver.CandidatesBeforeOrdered | src/move-parser.js:133-144 | the candidates come strictly in scan order, hence sorted by rank |
| Resolver.CandidatesBeforeComplete | src/move-parser.js:133-144 | no matching square among those scanned is missed |
| Resolver.Selected | src/move-parser.js:146-165 | the pieces tried are all candidates, and each matches the notation |
| Resolver.Select | src/move-parser.js:152-165 | at least one piece is kept and every piece kept is a candidate; a prefix keeps exactly one, and PrefixPicksExtreme says which |
| Resolver.PrefixPicksExtreme | src/move-parser.js:152-165 | with a front or back prefix exactly one candidate survives: red front and black back take the smallest rank, red back and black front the largest |
| Resolver.PrefixCharacterPicksExtreme | src/move-parser.js:152-165 | read from the text, a 前/后 move keeps exactly one candidate: 前 takes red's smallest rank and black's largest, 后 the other end |
| Resolver.ElephantFile | src/move-parser.js:199-201 | the corrected elephant file is the notated column's file, in 0..8 |
| Resolver.ElephantFileAsWritten | src/move-parser.js:201 | the file two away from the elephant's own, to the left exactly when the target is 3, whatever the colour and the notated column |
| Resolver.HorseDestination | src/move-parser.js:202-211 | the horse's computed destination; no contract of its own: HorseShape characterises it |
| Resolver.Destination | src/move-parser.js:167-289 | the destination table for every archetype and action; no contract of its own: LevelKeepsRank, FileMoverAdvanceRetreat, HorseShape, DiagonalDestinations and RetreatOfPawnOrElephantFails characterise it |
| Resolver.LevelKeepsRank | src/move-parser.js:169-187 | 平 keeps the rank and moves to file 9-target for red, target-1 for black |
| Resolver.FileMoverAdvanceRetreat | src/move-parser.js:188-289 | a rook, cannon, king or pawn moves target ranks on its own file: red 进 to y-target, black 进 to y+target; 退 of all but the pawn the other way |
| Resolver.HorseShape | src/move-parser.js:202-211 | the horse's destination file is the notated column; a one-file change moves two ranks, a two-file change one rank, toward the opponent exactly for 进 |
| Resolver.DiagonalDestinations | src/move-parser.js:188-289 | the advisor lands on the notated column one rank toward the opponent for 进 and away for 退; the elephant's 进 goes two ranks toward the opponent, by the source's formula two files over (to the left exactly for target 3), by the corrected rule onto the notated column |
| Resolver.CollectCandidates | src/move-parser.js:131-144 | the nested scan loop collects exactly the specified candidate list |
| Resolver.CollectRank | src/move-parser.js:134-143 | the inner loop over one rank appends exactly that rank's matching squares, left to right |
| Resolver.Works | src/move-parser.js:183-291 | a candidate whose computed destination passes isValidTarget; no contract of its own: FirstWorkingFinds states its use |
| Resolver.FirstWorking | src/move-parser.js:178-302 | the move of the first working candidate; no contract of its own: FirstWorkingFinds characterises it and TryCandidates computes it |
| Resolver.Resolve | src/move-parser.js:125-306 | findCoordinates' result; no contract of its own: ResolveProperties characterises it and FindCoordinates computes it |
| Resolver.FirstWorkingFinds | src/move-parser.js:178-302 | over a list of candidates: null iff none works; otherwise the move comes from a candidate that works, every earlier one fails, it goes to that candidate's computed destination and records what stood there |
| Resolver.ResolveProperties | src/move-parser.js:125-306 | null for a missing or result descriptor; a returned move starts from a matching piece on the explicit file, has both squares on the board, the destination the action computes, passes isValidTarget, never lands on a friendly piece, and records the prior content of the destination as captured; it is null exactly when no selected candidate works, and otherwise comes from the first one that does |
| Resolver.TryCandidates | src/move-parser.js:178-302 | the loop over the selected candidates returns the move of the first whose destination works, or null |
| Resolver.FindCoordinates | src/move-parser.js:125-306 | the result is that of the specification: the scan's candidates, narrowed by 前/后, and the first whose destination works under the given elephant rule |
| Resolver.RetreatOfPawnOrElephantFails | src/move-parser.js:243-289 | 退 of a pawn or an elephant never resolves, since that branch leaves the destination on the piece's own square |
| Resolver.OwnSquareNeverValid | src/move-parser.js:312-315 | a piece's own square, holding a friendly piece, is never an accepted destination |
| Resolver.ElephantFileAsWrittenMisreads | src/move-parser.js:199-201 | with a lone red elephant on (6,9), 相三进五 at ply 0 resolves to (6,9)→(8,7), column 一, under the source's formula and to (6,9)→(4,7), column 五, under the corrected rule |
| Resolver.LoneElephantCandidate | src/move-parser.js:133-144 | on that board the scan has met exactly the elephant on file 6 once it has passed square 9*9+6, and nothing before |
| Resolver.ElephantOpeningParses | src/move-parser.js:46-117 | 相三进五 at ply 0 reads as a red elephant on file 6 advancing with target 5 |
| Resolver.ElephantStepAccepted | src/move-parser.js:358-364 | a lone red elephant on its home square may step to rank 7 on file 4 or 8 |
| PieceRules.CountPiecesBetween | dist/src/rules/piece-rules.js:20-42 | the loops count exactly the occupied squares strictly between two squares on a shared row (checked first) or column, and 0 otherwise |
| Board.InBounds | dist/src/rules/piece-rules.js:13-15 | isInBounds on the 10x9 board; no contract of its own: used by every rule and the validator's first precheck |
| Board.RowCount | dist/src/rules/piece-rules.js:29-31 | occupied cells of a row range; no contract of its own: RowCountZero and RowCountBound characterise it |
| Board.ColumnCount | dist/src/rules/piece-rules.js:36-38 | occupied cells of a column range; no contract of its own: ColumnCountZero and ColumnCountBound characterise it |
| Board.PiecesBetween | dist/src/rules/piece-rules.js:20-42 | the value both countPiecesBetween functions compute; no contract of its own: PiecesBetweenZero, PiecesBetweenBound and the two CountPiecesBetween methods characterise it |
| Board.PiecesBetweenZero | dist/src/rules/piece-rules.js:20-42 | the count is zero iff, for aligned squares, every square between is empty |
| Board.PiecesBetweenBound | dist/src/rules/piece-rules.js:20-42 | the count is 0 for squares that are not aligned and never exceeds the distance minus one |
| Board.ColumnCountZero | dist/src/rules/piece-rules.js:36-38 | a column count is zero iff every cell in its range is empty |
| Board.RowCountZero | dist/src/rules/piece-rules.js:29-31 | a row count is zero iff every cell in its range is empty |
| Board.ColumnCountBound | dist/src/rules/piece-rules.js:36-38 | a column count never exceeds the length of its range |
| Board.RowCountBound | dist/src/rules/piece-rules.js:29-31 | a row count never exceeds the length of its range |
| PieceRules.TypeOf | dist/src/rules/validator.js:27-35 | exactly the seven type letters R, N, B, A, K, P and C have a rule |
| PieceRules.IsInPalace | dist/src/rules/piece-rules.js:49-56 | a palace square is on the board and on its owner's side of the river (rows 5..9 for red, 0..4 for black) |
| PieceRules.PalaceOnOwnSide | dist/src/rules/piece-rules.js:49-56 | a palace square is on the board, on its owner's side of the river, and not in the other palace |
| PieceRules.HasCrossedRiver | dist/src/rules/piece-rules.js:61-63 | hasCrossedRiver with its default rows; no contract of its own: HasCrossedRiverInverted characterises it |
| PieceRules.PawnCrossed | dist/src/rules/piece-rules.js:274-290 | the pawn rule's own crossing test; no contract of its own: HasCrossedRiverInverted and PawnValidate state its use |
| PieceRules.HasCrossedRiverInverted | dist/src/rules/piece-rules.js:61-63 | hasCrossedRiver holds exactly on the colour's own side, the opposite of the pawn rule's crossing test |
| PieceRules.RookValidate | dist/src/rules/piece-rules.js:69-87 | valid iff aligned with every square between empty; refused as not straight iff not aligned |
| PieceRules.BlockingOffset | dist/src/rules/piece-rules.js:95-104 | the leg offset for each L-shaped step; no contract of its own: BlockingOffsetIsLeg characterises it |
| PieceRules.BlockingOffsetIsLeg | dist/src/rules/piece-rules.js:95-104 | the offset table has entries for exactly the eight L-shaped steps, each one step along the long side |
| PieceRules.KnightValidate | dist/src/rules/piece-rules.js:106-133 | valid iff L-shaped with the leg square empty; refused as not an L iff the shape is wrong |
| PieceRules.ElephantValidate | dist/src/rules/piece-rules.js:140-170 | valid iff the offset is (±2,±2), red ends on rows 5..9 and black on 0..4, and the eye is empty; refused as not a field iff the offset is wrong |
| PieceRules.AdvisorValidate | dist/src/rules/piece-rules.js:177-195 | valid iff the destination is in the palace and the step is one diagonal; refused for the palace iff outside it |
| PieceRules.FirstKingFrom | dist/src/rules/piece-rules.js:223-232 | a found king square is on the board |
| PieceRules.FirstKingFromFinds | dist/src/rules/piece-rules.js:223-232 | the search finds a king of the colour iff one stands at or after the start, and then the first in scan order |
| PieceRules.FirstKing | dist/src/rules/piece-rules.js:220-232 | the enemy-king search from the first square; no contract of its own: FirstKingFromFinds and FindKing characterise it |
| PieceRules.KingRule | dist/src/rules/piece-rules.js:202-252 | an accepted king move is one orthogonal step that ends in the palace, and a refusal gives one of the king's three reasons |
| PieceRules.KingRuleFlyingGeneral | dist/src/rules/piece-rules.js:202-252 | with a single enemy king, a palace step is refused as flying general iff it stands on the enemy king's column with nothing between once the mover has left; otherwise it is valid |
| PieceRules.FindKing | dist/src/rules/piece-rules.js:220-232 | the nested search with its two breaks returns the first king of the colour in scan order |
| PieceRules.CountBetweenKings | dist/src/rules/piece-rules.js:234-243 | the loop with its continue counts the pieces between the two kings on the board with the origin emptied |
| PieceRules.KingRuleSteps | dist/src/rules/piece-rules.js:207-217 | the king is refused for leaving the palace iff the destination is outside it, and for its step iff the destination is inside but not one orthogonal step away; an accepted king move is one orthogonal step into the palace |
| PieceRules.KingValidate | dist/src/rules/piece-rules.js:202-252 | the king's verdict equals the king rule: palace, then one orthogonal step, then the flying-general test |
| PieceRules.PawnValidate | dist/src/rules/piece-rules.js:259-301 | valid iff one orthogonal step that is forward or made after crossing; the wrong-direction reason is never produced |
| PieceRules.CrossedPawnMovesFreely | dist/src/rules/piece-rules.js:273-301 | after crossing a pawn may take any single orthogonal step, backward included |
| PieceRules.CannonValidate | dist/src/rules/piece-rules.js:308-336 | valid iff aligned with exactly one piece between when taking and none when not; refused for a missing screen iff aligned, taking, with a clear path |
| Validator.ValidateMove | dist/src/rules/validator.js:45-80 | the verdict equals the specification: the prechecks in order, then the type's rule |
| Validator.Rule | dist/src/rules/validator.js:27-35 | the rule each type letter dispatches to; no contract of its own: DispatchByType states the dispatch |
| Validator.MoveVerdict | dist/src/rules/validator.js:45-80 | validateMove's verdict; no contract of its own: ValidateMove computes it, and PrechecksInOrder, DispatchByType, NoSelfCapture and ConfinedPieces characterise it |
| Validator.PrechecksInOrder | dist/src/rules/validator.js:50-70 | out of bounds iff either square is off the board; then same square, empty origin and friendly capture in that order |
| Validator.DispatchByType | dist/src/rules/validator.js:73-79 | after the prechecks, an unknown letter is refused and a known one gets exactly its rule's verdict |
| Validator.NoSelfCapture | dist/src/rules/validator.js:67-70 | an accepted move is on the board, really moves, starts from a known piece and never takes a friendly one |
| Validator.ConfinedPieces | dist/src/rules/validator.js:27-35 | accepted king and advisor moves end in the palace and an accepted king move is one orthogonal step; accepted elephant moves are (±2,±2) and stay on their side |
| Validator.PalacePiecesStayHome | dist/src/rules/piece-rules.js:49-56 | an accepted king or advisor move ends on rows 7..9 (red) or 0..2 (black), columns 3..5 |
| Validator.FlyingGeneralRefused | dist/src/rules/piece-rules.js:234-248 | kings face to face on column 4: red's step to (7,4) is refused as flying general |
| Validator.FlyingGeneralScreened | dist/src/rules/piece-rules.js:234-248 | with any piece between the kings the same step is valid |
| Validator.PawnRetreatAfterRiver | dist/src/rules/validator.test.js:427-431 | a crossed red pawn may step back; an uncrossed one is refused for the backward and the sideways step |
| Validator.CannonNeedsOneScreen | dist/src/rules/piece-rules.js:318-334 | a cannon takes over exactly one screen; with none or two it is refused with the matching reason |
| RuleTables.PalaceTablesAgree | dist/src/rules/piece-rules.js:49-56 | both rule tables draw the same palaces |
| RuleTables.FlyingGeneralOnlyInValidator | src/move-parser.js:350-352 | the resolver accepts the king step the validator refuses as flying general |
| RuleTables.CrossedPawnRetreatOnlyInValidator | src/move-parser.js:366-374 | the validator accepts a crossed pawn's step back, the resolver does not |
| GameBrowser.FindGameFirst | dist/src/game-browser.js:171 | the lookup finds a game iff one has the id, and then the first such game |
| GameBrowser.FindGame | dist/src/game-browser.js:171 | a game found is one of the games and has the id; FindGameFirst adds that it is the first |
| GameBrowser.NextIndex | dist/src/game-browser.js:193-194 | the cursor after nextMove; no contract of its own: NextPrevInverse and ForwardStopsAtLast characterise it |
| GameBrowser.PrevIndex | dist/src/game-browser.js:205-206 | the cursor after prevMove; no contract of its own: NextPrevInverse characterises it |
| GameBrowser.Forward | dist/src/game-browser.js:191-198 | the cursor after k nextMove calls; no contract of its own: ForwardStopsAtLast characterises it |
| GameBrowser.NextPrevInverse | dist/src/game-browser.js:191-210 | away from the ends, nextMove and prevMove undo each other |
| GameBrowser.ForwardStopsAtLast | dist/src/game-browser.js:191-198 | k calls of nextMove from any move go k moves on but stop at the last move |
| GameBrowser.GameCollection.constructor | dist/src/game-browser.js:11-16 | a new collection is empty, without a current game, at index 0, not loaded |
| GameBrowser.GameCollection.AddGames | dist/src/game-browser.js:38-41 | appends the games and leaves the cursor unchanged |
| GameBrowser.GameCollection.LoadGame | dist/src/game-browser.js:170-178 | a known id makes the first game with it current at index 0 and returns it; an unknown id changes nothing and returns nothing |
| GameBrowser.GameCollection.CurrentMove | dist/src/game-browser.js:183-186 | with the index invariant, there is a current move iff the current game has a non-empty move list, and it is the move at the index |
| GameBrowser.GameCollection.NextMove | dist/src/game-browser.js:191-198 | advances exactly when before the last move and then returns the new current move; otherwise nothing changes and nothing is returned; keeps the index in bounds |
| GameBrowser.GameCollection.PrevMove | dist/src/game-browser.js:203-210 | steps back exactly when after the first move and then returns the new current move; otherwise nothing changes and nothing is returned; keeps the index in bounds |
| GameBrowser.GameCollection.JumpToMove | dist/src/game-browser.js:215-222 | sets the index exactly for 0 <= index < length and returns that move; otherwise nothing changes and nothing is returned |
| GameBrowser.ChineseToNumber | dist/src/game-browser.js:427-435 | the value is always in 0..9 |
| GameBrowser.ChineseToNumberAgrees | dist/src/game-browser.js:427-435 | it equals the resolver's numeral table where that has a value, and is 0 exactly where it has none |
| GameBrowser.FirstMatchIsLeftmost | dist/src/game-browser.js:409-410 | the unanchored match is at a position where the pattern matches, and no earlier position matches |
| GameBrowser.PatternPiecesAsWritten | dist/src/game-browser.js:409 | the pattern's eleven piece glyphs; no contract of its own: TraditionalRookUnreadAsWritten shows what it lacks |
| GameBrowser.PatternPieces | dist/src/game-browser.js:402-409 | the same class with 車 and 馬 added; no contract of its own: LooseAgreesWithStrict states its use |
| GameBrowser.MatchesAt | dist/src/game-browser.js:409 | the pattern matches the four characters at a position; no contract of its own: LeftmostMatch and LooseMoveAt state what a match yields |
| GameBrowser.FirstMatchFrom | dist/src/game-browser.js:410 | the unanchored search; no contract of its own: FirstMatchIsLeftmost characterises it |
| GameBrowser.LeftmostMatch | dist/src/game-browser.js:409-424 | null exactly when no four consecutive characters match the pattern; otherwise the piece, column, action and target are the four characters of the leftmost match, the numerals read by their value |
| GameBrowser.MatchAtStartIsRead | dist/src/game-browser.js:409-424 | a match at the first character is the one read |
| GameBrowser.LooseParse | dist/src/game-browser.js:404-425 | after trimming, null exactly when the pattern matches nowhere in the text; a result keeps the trimmed text as its raw field |
| GameBrowser.LooseMoveAt | dist/src/game-browser.js:416-424 | the descriptor of a match at position i has the piece and action characters at i and i+2, and column and target the values of the numerals at i+1 and i+3, in 1..9 |
| GameBrowser.ParseMoveLooseAsWritten | dist/src/game-browser.js:404-425 | MoveParser.parseMove as written; no contract of its own: LooseParse characterises it and TraditionalRookUnreadAsWritten shows the missing glyphs |
| GameBrowser.ParseMoveLoose | dist/src/game-browser.js:404-425 | the reader with the corrected class; no contract of its own: LooseParse characterises it and LooseAgreesWithStrict relates it to the strict reader |
| GameBrowser.TraditionalRookUnreadAsWritten | dist/src/game-browser.js:402-409 | 車二进三 reads as nothing with the pattern as written, and as 車 2 进 3 with 車 and 馬 added |
| GameBrowser.LooseAgreesWithStrict | dist/src/game-browser.js:404-425 | on text the strict reader accepts with an explicit column, the loose reader gives the same glyph, column, action and target |

## Left out

- `GameCollection.loadAllGames` fetches JSON files over the network. It is left out apart from
  its `push` of the fetched games, which `AddGames` models; the `loaded` flag it sets is kept
  as a field. `getProgress`, `getStats`, `searchGames` and the whole `GameBrowserUI` (DOM
  rendering) are not part of this model.
- `GameBrowser.Game` keeps only a record's `id` and `moves`. The other fields (name,
  collection, opening) do not affect navigation.
- `MoveParser.moveToCoordinates` in `dist/src/game-browser.js` is a stub and is not part of
  this model, nor is `parseGame` in `src/move-parser.js`.
- `console.warn` calls are dropped; each such path returns `None`, as the source returns null.
- Non-string input to `parseMove` (its `typeof` test) cannot occur: the input is a `string`.
  The game browser's `MoveParser.parseMove` would throw on a non-string; that is not modelled.
- A board cell's type is a single character. A multi-character type string is not modelled.
- `jumpToMove` with a non-integer index is not modelled: the index is an `int`.
- `getCurrentMove` returns `undefined` when the index is past the end of an empty move list.
  The model returns `None` for this, as it does for `null`.
- `Rules.isInBounds` takes the board size as parameters with defaults 10 and 9. Every caller
  uses 10 and 9, so it is `Board.InBounds` with those constants.
- The sort of the candidates by rank in `findCoordinates` is not written out: the scan already
  yields them in rank order (`Resolver.CandidatesBeforeOrdered`) and the sort is stable, so it
  leaves the list unchanged.
- The `ruleValidators` object and the `ROWS`/`COLS` fields of `XiangqiValidator` are the
  constants of `Validator.Rule` and `Board`; the validator instance passed to `KingRules.validate`
  is unused there and is not modelled.
- The reason strings are constructors of `PieceRules.Reason` rather than the Chinese text.
- ToNotationAsWritten: requires an on-board move and a piece type with a glyph. The source
  throws a TypeError for an unknown type, since its glyph table has no entry, and writes
  "undefined" for a file outside 0..8, which has no numeral.
- ToNotation: the same requires, for the same two cases.
- ParseMove: the ply index is always passed. The source's default `moveIndex = 0`
  (src/move-parser.js:46) is not modelled; a caller that omits it is `ParseMove(s, 0)`.

## Findings

| source | as written | input that shows it | evidently intended | confidence | as-written member | corrected member |
|---|---|---|---|---|---|---|
| src/move-parser.js:201 | the elephant's destination file is two files left when the target is 3 and two files right otherwise, ignoring the notated column | 相三进五 at ply 0 with the red elephant on file 6, rank 9: it is sent to file 8 (column 一), a square the resolver's check accepts | the file of the notated column (9-target for red, target-1 for black), as for the advisor and the horse: file 4 | not executed; high | Resolver.ElephantFileAsWrittenMisreads | Resolver.DiagonalDestinations |
| src/move-parser.js:425 | toNotation always takes the red glyph, and the red glyphs 俥, 傌 and 帥 are not in parseMove's patterns | a red rook from (0,9) to (0,8) is written 俥九进一, which parseMove reads as null | a glyph parseMove accepts, of the mover's colour where the patterns have one | not executed; medium | Notation.ToNotationAsWrittenUnreadable | Notation.ToNotationRoundTrip |
| dist/src/game-browser.js:409 | the pattern's piece class has only the simplified 车 and 马, although the parser's description lists 車二进三 and 馬八进七 as supported | 車二进三 gives null | the class also holds 車 and 馬 | not executed; medium | GameBrowser.TraditionalRookUnreadAsWritten | GameBrowser.LooseAgreesWithStrict |
