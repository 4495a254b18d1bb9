# Chess Pocket puzzle engine — a verified model

Chess Pocket is an offline chess-puzzle app played on small boards (5×5 to
8×8). This project models its non-UI core in Dafny and proves properties of
that model:

- **Board coordinates** (`utils/coords.ts`, module `Coords`):
  - on-board test and coordinate equality;
  - the `"x,y"` square key and its parser.
- **Move engine** (`utils/chessLogic.ts`):
  - Module `ChessLogic` defines the engine:
    - pseudo-legal move generation for king, queen, rook, bishop, knight and pawn, including the double step and promotion choices;
    - attack and check detection;
    - applying a move, with capture and automatic queen promotion;
    - the legal-move filter and checkmate;
    - the legacy helpers.
  - Each generator loop is a method, proved equal to a recursive specification function.
  - Module `ChessLemmas` proves the properties of those functions.
  - Module `ChessSelfTest` models the development self-test and proves its outcome.
- **Puzzle validator** (`utils/puzzleValidator.ts`, module `PuzzleValidator`):
  - the king-count check;
  - the replay of a puzzle's solution line, ply by ply;
  - the final checkmate check;
  - the batch report.
  - Module `PuzzleFixture` works through puzzle 7 of `data/builtInPuzzles.ts` as a concrete case.
- **Content store** (`data/ContentStore.ts`, module `ContentStore`):
  - lookup by id;
  - the daily puzzle;
  - filtering;
  - the sorted lists of pack names and objective types.
  - The bundled puzzle list is a parameter, `dataset`. A date is its millisecond timestamp.

Positions are lists of pieces, as in the source. `PieceOn` and `NoOverlap` (at most one piece per square) are the
vocabulary the lemmas use. `getAllPuzzles` is `ContentStore.GetAllPuzzles`, the identity on the dataset.
`needsPromotion` and `isValidSquare` are `ChessLogic.NeedsPromotion` and `ChessLogic.IsValidSquare`. `key` and
`isOnBoard` are `Coords.Key` and `Coords.IsOnBoard`; their rows name the lemmas that give them meaning.
Lemmas that unroll a filter over a fixed list of pieces (`VacateSnoc`, `VacateThree`, `VacateSix`, `KingsSnoc`,
`KingsSix`) are proof steps for the concrete positions and have no row.

## Model

| member | source | states |
|---|---|---|
| Coords.OnBoardExactly | utils/coords.ts:13-15 | the bounds test accepts exactly the size×size squares of the board, enumerated row by row |
| Coords.Eq | utils/coords.ts:27-29 | coordinate equality holds exactly for equal coordinates |
| Coords.IntToString | utils/coords.ts:20-22 | an integer's decimal rendering has no comma and starts with '-' exactly for negatives |
| Coords.NatToString | utils/coords.ts:20-22 | a natural number renders as digits without a leading zero |
| Coords.DigitsOfNat | utils/coords.ts:20-22 | reading back the digits of a rendered natural number gives the number |
| Coords.IndexOf | utils/coords.ts:34-36 | the split position is the first comma, or none when there is no comma |
| Coords.ParseRendered | utils/coords.ts:34-36 | parsing a rendered integer gives the integer back |
| Coords.ParseKeyOfKey | utils/coords.ts:20-36 | parseKey(key(c)) == c for every coordinate: the key loses nothing of the square |
| Coords.KeyInjective | utils/coords.ts:20-29 | two squares have the same key iff they are equal |
| ChessLogic.FindKing | utils/chessLogic.ts:201-203 | none iff no king of that colour is listed, else the first listed king of that colour |
| ChessLogic.KingMovesOf | utils/chessLogic.ts:67-81 | the 3×3 scan loop returns the king's move list |
| ChessLogic.KingColumnOf | utils/chessLogic.ts:70-79 | the inner dy loop, skipping (0,0), returns one column of the king's scan |
| ChessLogic.KnightMovesOf | utils/chessLogic.ts:111-126 | the offset-table loop returns the knight's move list |
| ChessLogic.RayWalk | utils/chessLogic.ts:94-110 | the while loop along one direction returns that direction's ray |
| ChessLogic.RaysOf | utils/chessLogic.ts:94-108 | the loop over the directions returns their rays in order |
| ChessLogic.SliderMovesOf | utils/chessLogic.ts:82-110 | the direction loop returns the slider's moves: rook directions then bishop directions |
| ChessLogic.PawnMovesOf | utils/chessLogic.ts:127-174 | returns the pawn's advances then its captures |
| ChessLogic.PawnCapturesOf | utils/chessLogic.ts:155-173 | the capture loop over files -1, +1 returns the capture moves |
| ChessLogic.GeneratePseudoLegalMoves | utils/chessLogic.ts:55-178 | the generator returns the moves of each friendly piece, in list order |
| ChessLogic.ApplyMove | utils/chessLogic.ts:213-249 | returns the position with both squares vacated and the mover (per the promotion rule) appended, or the unchanged position when `from` is empty |
| ChessLogic.GenerateLegalMoves | utils/chessLogic.ts:254-270 | the filter loop returns the legal moves |
| ChessLogic.GetKingSquare | utils/chessLogic.ts:398-401 | null iff no king of that colour; otherwise the square of the first listed king of that colour |
| ChessLemmas.GetPieceAtNone | utils/chessLogic.ts:40-42 | no piece is found iff no listed piece stands on the square |
| ChessLemmas.GetPieceAtFirst | utils/chessLogic.ts:40-42 | the piece found is the first listed piece on the square |
| ChessLemmas.GetPieceAtSound | utils/chessLogic.ts:40-42 | a piece found is a listed piece on the square |
| ChessLemmas.ScanRowsMembers | utils/chessLogic.ts:69-80 | the nested dx/dy scan, skipping (0,0), visits exactly the eight king offsets |
| ChessLemmas.KingRowsScans | utils/chessLogic.ts:69-80 | the king's scan is that nested scan applied to the one-square step |
| ChessLemmas.KingMovesSteps | utils/chessLogic.ts:67-81 | the king's moves are exactly the step moves of its eight offsets |
| ChessLemmas.KingMovesExactly | utils/chessLogic.ts:67-81 | a king move is exactly a one-square step onto the board, not onto a friendly piece, without promotion |
| ChessLemmas.PerOffsetMembers | utils/chessLogic.ts:94-123 | the moves gathered over a list of offsets are exactly the moves of one of its entries |
| ChessLemmas.OffsetMovesPerOffset | utils/chessLogic.ts:117-125 | the knight's table loop gathers the step move of each offset |
| ChessLemmas.OffsetMovesMembers | utils/chessLogic.ts:113-126 | the moves of an offset table are exactly the step moves of its entries |
| ChessLemmas.KnightMovesExactly | utils/chessLogic.ts:111-126 | a knight move is exactly an L-shaped jump onto the board, not onto a friendly piece |
| ChessLemmas.RayShape | utils/chessLogic.ts:94-110 | a ray's moves go, in order, to consecutive on-board squares along the direction |
| ChessLemmas.RayPassesEmpty | utils/chessLogic.ts:97-106 | a ray passes only empty squares before its last one |
| ChessLemmas.RayEndsOnEnemy | utils/chessLogic.ts:101-105 | a ray that ends on an occupied square ends on an enemy piece |
| ChessLemmas.RayStopsBefore | utils/chessLogic.ts:97-106 | a ray that ends on an empty square stops at the board's edge or before a friendly piece |
| ChessLemmas.RayCanLand | utils/chessLogic.ts:97-106 | every ray move starts on the slider's square, has no promotion and may land where it ends |
| ChessLemmas.RayLands | utils/chessLogic.ts:94-110 | every ray move lands on the board on an empty or enemy square |
| ChessLemmas.RaysPerOffset | utils/chessLogic.ts:94-108 | the direction loop gathers the ray of each direction |
| ChessLemmas.RaysFromMembers | utils/chessLogic.ts:94-108 | the slider's moves are exactly the moves of the ray of one of its directions |
| ChessLemmas.RaysMembers | utils/chessLogic.ts:94-110 | every slider move belongs to the ray of one of its directions |
| ChessLemmas.RaysIncludes | utils/chessLogic.ts:94-110 | every move of a ray in one of the directions is a slider move |
| ChessLemmas.SliderGeometry | utils/chessLogic.ts:84-92 | rooks move straight, bishops diagonally, queens one or the other |
| ChessLemmas.DirectionKinds | utils/chessLogic.ts:84-92 | a rook's directions keep a file or rank; a bishop's are diagonal |
| ChessLemmas.RayLine | utils/chessLogic.ts:94-108 | a ray's moves stay on its line through the slider |
| ChessLemmas.PawnToMembers | utils/chessLogic.ts:136-144 | the moves to a square are exactly those with a fitting promotion: some choice on the last rank, none elsewhere |
| ChessLemmas.PawnToOncePerChoice | utils/chessLogic.ts:136-144 | on the last rank the move is listed four times with four different choices; elsewhere once, without a choice |
| ChessLemmas.NeedsPromotionOnArrival | utils/chessLogic.ts:403-407 | on a puzzle board a generated pawn move carries a promotion iff the pawn on its target square needs one |
| ChessLemmas.ValidSquareExactly | utils/chessLogic.ts:409-411 | a square is valid iff it is one of the squares of the board |
| ChessLemmas.PawnAdvanceMembers | utils/chessLogic.ts:133-153 | the advances are exactly the single step onto an empty square and the double step from the start rank |
| ChessLemmas.PawnCapturesMembers | utils/chessLogic.ts:155-173 | the captures are exactly the forward-diagonal steps onto an enemy piece |
| ChessLemmas.PawnMovesExactly | utils/chessLogic.ts:127-174 | a pawn move is exactly a single step, a double step or a diagonal capture |
| ChessLemmas.PromotionsComeInFours | utils/chessLogic.ts:136-141 | a promoting pawn move is offered with all four promotion choices |
| ChessLemmas.SliderMovesLand | utils/chessLogic.ts:82-110 | slider moves land on the board, off the own square, on an empty or enemy square |
| ChessLemmas.PawnMovesLand | utils/chessLogic.ts:127-174 | pawn moves land likewise |
| ChessLemmas.PieceMovesLand | utils/chessLogic.ts:63-175 | every piece's moves land likewise |
| ChessLemmas.MovesOfFirstMembers | utils/chessLogic.ts:61-63 | the generated moves are exactly the moves of the pieces of the side to move |
| ChessLemmas.PseudoLegalTraits | utils/chessLogic.ts:55-178 | a pseudo-legal move starts on a friendly piece and ends on the board, on another square, never on a friendly piece |
| ChessLemmas.GetPieceAtConcat | utils/chessLogic.ts:40-42 | the lookup in a concatenation searches the first part, then the second |
| ChessLemmas.VacateMembers | utils/chessLogic.ts:224-226 | the filter keeps exactly the pieces on neither square, in order |
| ChessLemmas.VacateElsewhere | utils/chessLogic.ts:224-226 | the filter leaves every other square's piece unchanged |
| ChessLemmas.AppliedSquares | utils/chessLogic.ts:213-249 | after a move the to-square holds the mover (promoted by the promotion rule), the from-square is empty, every other square is unchanged; an empty from-square changes nothing |
| ChessLemmas.NoOverlapSnoc | utils/chessLogic.ts:241-246 | appending a piece keeps one piece per square iff its square was free |
| ChessLemmas.VacateNoOverlap | utils/chessLogic.ts:224-226 | vacating keeps one piece per square |
| ChessLemmas.AppliedKeepsNoOverlap | utils/chessLogic.ts:213-249 | applying a move keeps one piece per square |
| ChessLemmas.CountOnAtMostOne | utils/chessLogic.ts:40-42 | with one piece per square each square holds at most one piece, and none iff the lookup finds none |
| ChessLemmas.VacateSize | utils/chessLogic.ts:224-226 | vacating removes exactly the pieces on the two squares |
| ChessLemmas.AppliedSize | utils/chessLogic.ts:213-249 | a move keeps the piece count, less one for a capture |
| ChessLemmas.AppliedNeverLeavesPromotablePawn | utils/chessLogic.ts:228-238 | no pawn is left standing on its last rank after a move |
| ChessLemmas.PieceOnOwnSquare | utils/chessLogic.ts:40-42 | with one piece per square, each piece is the one found on its square |
| ChessLemmas.AttackedByPiece | utils/chessLogic.ts:183-196 | a square is attacked iff some piece of the attacker has a move ending there |
| ChessLemmas.AdjacentKingGivesCheck | utils/chessLogic.ts:201-207 | a king next to the enemy king is in check |
| ChessLemmas.KeepWhereMembers | utils/chessLogic.ts:262-267 | a filter keeps exactly the candidates that pass its test, as a sub-list |
| ChessLemmas.KeepLegalKeepsSafe | utils/chessLogic.ts:262-267 | the legal filter is that filter with the test "the own king is not in check after the move" |
| ChessLemmas.KeepLegalMembers | utils/chessLogic.ts:262-267 | the filter keeps exactly the candidates that do not leave the own king in check, as a sub-list |
| ChessLemmas.LegalMovesExactly | utils/chessLogic.ts:254-270 | a move is legal iff it is pseudo-legal and does not leave the own king in check; order is kept |
| ChessLemmas.CheckmateExactly | utils/chessLogic.ts:276-278 | checkmate iff in check and every pseudo-legal move leaves the king in check; a side without a king is never mated |
| ChessLemmas.LegacyDestinations | utils/chessLogic.ts:358-379 | no destinations for an empty square, else exactly the to-squares of the side's legal (or pseudo-legal) moves from that square |
| ChessLemmas.MovesFromKeeps | utils/chessLogic.ts:370-377 | selecting the moves from a square is the order-keeping filter on the from-square |
| ChessLemmas.MovesFromExactly | utils/chessLogic.ts:370-377 | the moves from a square are exactly the listed moves starting there, as a sub-list in the same order |
| ChessLemmas.DestinationsFrom | utils/chessLogic.ts:370-377 | the destinations of the moves from a square are the squares those moves reach |
| ChessLemmas.MakeMoveAssumesEightRanks | utils/chessLogic.ts:381-388 | the legacy entry point promotes on rank 7 only, so a white pawn reaching rank 4 of a 5×5 board stays a pawn |
| ChessLemmas.NoPiecesNoMoves | utils/chessLogic.ts:61-63 | a side without pieces has no moves |
| ChessLemmas.AppliedAddsNoColour | utils/chessLogic.ts:213-249 | a move never introduces a colour that had no pieces |
| ChessLemmas.KeepWhereAll | utils/chessLogic.ts:262-267 | a filter whose test every candidate passes keeps them all |
| ChessLemmas.KeepLegalAll | utils/chessLogic.ts:262-267 | when no candidate leaves the king in check, the filter keeps them all |
| ChessLemmas.LonePieceMoves | utils/chessLogic.ts:61-63 | a lone piece's pseudo-legal moves are its own moves |
| ChessLemmas.UnopposedMovesAllLegal | utils/chessLogic.ts:201-207 | with no enemy pieces a side is never in check and all its pseudo-legal moves are legal |
| ChessSelfTest.RunChessLogicSelfTest | utils/chessLogic.ts:283-353 | outside development, passes with no errors; in development, reports exactly the failures of the five tests and passes iff there are none |
| ChessSelfTest.Collect | utils/chessLogic.ts:295-342 | the five checks produce the failure list in test order |
| ChessSelfTest.CheckLoneKing | utils/chessLogic.ts:290-303 | test 1's checks report a wrong move count and each missing square, in order |
| ChessSelfTest.LoneKingMoves | utils/chessLogic.ts:290-303 | a lone king on (3,3) has 8 legal moves, including (2,3) and (3,2) |
| ChessSelfTest.LoneKingPseudo | utils/chessLogic.ts:290-303 | the lone king has 8 pseudo-legal moves, including (2,3) and (3,2) |
| ChessSelfTest.LoneKingSteps | utils/chessLogic.ts:290-303 | the lone king's moves are its eight steps |
| ChessSelfTest.LoneRookMoves | utils/chessLogic.ts:305-310 | a lone rook on (0,0) has 14 moves |
| ChessSelfTest.PawnDirections | utils/chessLogic.ts:312-328 | the white pawn on (0,1) moves to (0,2) and (0,3); the black pawn on (0,6) moves to (0,5) and (0,4) |
| ChessSelfTest.MateMoveApplied | utils/chessLogic.ts:330-340 | the rook move (0,6)→(7,6) gives the stated position |
| ChessSelfTest.EscapeIsPseudoLegal | utils/chessLogic.ts:330-342 | the black king may step from (7,7) to (6,7) |
| ChessSelfTest.EscapeApplied | utils/chessLogic.ts:330-342 | that escape gives the stated position |
| ChessSelfTest.EscapeIsSafe | utils/chessLogic.ts:330-342 | after the escape no white piece attacks the black king |
| ChessSelfTest.MateSetupIsNotMate | utils/chessLogic.ts:330-342 | the position of test 5 is not checkmate |
| ChessSelfTest.SelfTestOutcome | utils/chessLogic.ts:283-353 | in development the self-test reports exactly one failure: test 5 |
| PuzzleValidator.KingsMembers | utils/puzzleValidator.ts:50-51 | exactly the listed kings of one colour |
| PuzzleValidator.ValidatePuzzle | utils/puzzleValidator.ts:42-162 | the method computes the result that `Validation` specifies |
| PuzzleValidator.ReplayLine | utils/puzzleValidator.ts:64-136 | the replay loop ends with the first rejected ply's failure, or with the final position and side to move |
| PuzzleValidator.CheckPly | utils/puzzleValidator.ts:70-126 | the checks run in order: side to move, a piece on `from`, its colour, legality; an illegal ply records the legal moves from its square |
| PuzzleValidator.ValidateAllPuzzles | utils/puzzleValidator.ts:167-205 | the report holds the self-test outcome, the puzzle count, the number passed and the failed results in order |
| PuzzleValidator.Tally | utils/puzzleValidator.ts:175-195 | the loop counts the passed results and collects the failures in order |
| PuzzleValidator.ReplayAccepts | utils/puzzleValidator.ts:70-134 | an accepted ply is played and the replay goes on with the other side |
| PuzzleValidator.ReplayRejects | utils/puzzleValidator.ts:70-126 | a rejected ply ends the replay with its failure |
| PuzzleValidator.ReplayFinishes | utils/puzzleValidator.ts:68-136 | the replay finishes iff every ply is accepted in the position the earlier plies reach, and then ends where the whole line leads |
| PuzzleValidator.ReplayStopsAtFirstRejection | utils/puzzleValidator.ts:68-136 | a failed replay stops at the first rejected ply, with that ply's verdict |
| PuzzleValidator.AcceptedIffLegal | utils/puzzleValidator.ts:70-126 | with one piece per square, a ply is accepted iff it is the side to move's and is a legal move |
| PuzzleValidator.PawnOntoLastRankPromotes | utils/chessLogic.ts:127-173 | every pawn move onto its last rank names a promotion |
| PuzzleValidator.PromotionMustBeNamed | utils/puzzleValidator.ts:100-126 | a pawn ply onto the last rank without a promotion is rejected |
| PuzzleValidator.PassesExactly | utils/puzzleValidator.ts:42-162 | a puzzle passes iff it has one king per colour, every ply is accepted and, for a mate objective, the final position is mate; it passes iff it has no errors |
| PuzzleValidator.FailureReport | utils/puzzleValidator.ts:138-148 | a failed replay is reported with the first rejected ply's index, squares and error, and fails |
| PuzzleValidator.FailureFields | utils/puzzleValidator.ts:70-126 | a rejection names the ply and its squares; only an illegal move carries the legal moves from its square |
| PuzzleValidator.ReportAccounts | utils/puzzleValidator.ts:175-195 | passed plus failed equals the number of puzzles |
| PuzzleValidator.FailingExactly | utils/puzzleValidator.ts:175-195 | the failures are exactly the results that did not pass, in order |
| PuzzleValidator.EachResultInOrder | utils/puzzleValidator.ts:175-177 | a list built by validating each puzzle has one entry per puzzle, in order |
| PuzzleValidator.ResultsEach | utils/puzzleValidator.ts:175-177 | the results are the validation of each puzzle |
| PuzzleValidator.ResultsInOrder | utils/puzzleValidator.ts:175-177 | the k-th result is the validation of the k-th puzzle |
| PuzzleValidator.ResultsLength | utils/puzzleValidator.ts:175-177 | one result per puzzle |
| PuzzleFixture.WhiteKingsOfStart | data/builtInPuzzles.ts:165-172 | puzzle 7 lists one white king |
| PuzzleFixture.BlackKingsOfStart | data/builtInPuzzles.ts:165-172 | puzzle 7 lists one black king |
| PuzzleFixture.OneKingEach | data/builtInPuzzles.ts:165-172 | puzzle 7 has one king of each colour |
| PuzzleFixture.QueenTakesIsPseudoLegal | data/builtInPuzzles.ts:178 | the queen's capture on (6,7) is pseudo-legal |
| PuzzleFixture.QueenTakesApplied | data/builtInPuzzles.ts:178 | the capture removes the rook and puts the queen on (6,7) |
| PuzzleFixture.StartVacated | data/builtInPuzzles.ts:165-178 | the capture empties the queen's square and the rook's |
| PuzzleFixture.BlackKingMisses | data/builtInPuzzles.ts:165-178 | after the capture the black king does not reach (4,0) |
| PuzzleFixture.BlackPawnMisses | data/builtInPuzzles.ts:165-178 | after the capture the black pawn does not reach (4,0) |
| PuzzleFixture.WhiteKingUnattacked | data/builtInPuzzles.ts:165-178 | after the capture no black piece attacks (4,0) |
| PuzzleFixture.WhiteKingSafe | data/builtInPuzzles.ts:165-178 | after the capture the white king is not in check |
| PuzzleFixture.FirstPlyAccepted | data/builtInPuzzles.ts:178 | the first ply is accepted |
| PuzzleFixture.SecondPlyRejected | data/builtInPuzzles.ts:179 | the second ply starts on a white piece although black is to move |
| PuzzleFixture.SmotheredReplay | data/builtInPuzzles.ts:177-181 | the replay stops at ply 1 |
| PuzzleFixture.SmotheredMateFailsAtSecondPly | data/builtInPuzzles.ts:158-182 | puzzle 7 fails with a colour mismatch at ply 1, from (6,7) to (6,7), with no legal-move list |
| ContentStore.GetPuzzleById | data/ContentStore.ts:21-24 | none iff no puzzle has the id; otherwise the first puzzle with that id |
| ContentStore.DailyInRange | data/ContentStore.ts:30-37 | from 1970 on with a non-empty dataset, the daily puzzle is the one at (day count mod length) |
| ContentStore.SameDaySamePuzzle | data/ContentStore.ts:30-37 | every instant of one UTC day gives the same puzzle |
| ContentStore.NextDayNextPuzzle | data/ContentStore.ts:30-37 | one day later comes the next puzzle, wrapping after the last |
| ContentStore.DailyBeforeEpoch | data/ContentStore.ts:33-36 | one millisecond before the epoch, with two puzzles, no puzzle is returned |
| ContentStore.DailyPuzzleWrapped | data/ContentStore.ts:30-37 | the corrected daily puzzle: a puzzle for every date iff the dataset is non-empty |
| ContentStore.NextDayWrapped | data/ContentStore.ts:30-37 | the corrected daily puzzle advances cyclically on every day, before 1970 too |
| ContentStore.ApplyFiltersExactly | data/ContentStore.ts:42-69 | the filter keeps, in order, exactly the puzzles that match every criterion given |
| ContentStore.NoFiltersKeepAll | data/ContentStore.ts:42-69 | with no criterion the whole list is returned |
| ContentStore.Distinct | data/ContentStore.ts:76 | the set holds each value once, exactly the values present |
| ContentStore.StrLtIrreflexive | data/ContentStore.ts:77 | the sort order is irreflexive |
| ContentStore.StrLtTotal | data/ContentStore.ts:77 | any two distinct strings are ordered |
| ContentStore.StrLtTransitive | data/ContentStore.ts:77 | the sort order is transitive |
| ContentStore.Insert | data/ContentStore.ts:77 | insertion into a sorted list keeps it strictly sorted and adds one value |
| ContentStore.SortStrings | data/ContentStore.ts:77 | the sort returns the same values, strictly ascending |
| ContentStore.GetAllPacks | data/ContentStore.ts:74-78 | the pack names in use, each once, strictly ascending |
| ContentStore.GetAllObjectiveTypes | data/ContentStore.ts:83-87 | the objective types in use, each once, strictly ascending |

## Left out

- User interface, hooks, the play-session loop and all console logging: these are outside the engine and validator.
- The `__DEV__` build flag: it is the `dev` parameter of `RunChessLogicSelfTest` and `ValidateAllPuzzles`.
- The clock: `getDailyPuzzle` takes the timestamp `date.getTime()` as an integer number of milliseconds.
- The bundled puzzle data: it is the `dataset` parameter of the content store. Nothing claims that the bundled puzzles validate.
- Error and self-test messages: they are datatypes carrying the same data (`ValidationError`, `SelfTestError`), not formatted strings.
- `ValidationReport.selfTest`: flattened into the report's two fields `selfTestPassed` and `selfTestErrors`.
- Data sharing: JavaScript arrays become immutable sequences. That the source returns the same array objects (for example `getAllPuzzles`, or `applyMove` on an empty square) is not modelled, nor is any aliasing.
- The loop bodies of `validatePuzzle`, `validateAllPuzzles` and the self-test are separate methods: `ReplayLine`, `CheckPly`, `Tally`, `Collect` and `CheckLoneKing`. So are the king's inner scan (`KingColumnOf`) and the slider's direction loop (`RaysOf`). They run the same steps in the same order.
- `isKingInCheck` (utils/chessLogic.ts:390-396): it only reorders the arguments of `isInCheck`, so it is `ChessLogic.IsInCheck`.
- `isOnBoard`: utils/chessLogic.ts:47-49 repeats utils/coords.ts:13-15. Both are `Coords.IsOnBoard`.
- Coords.ParseKey: JavaScript's `Number()` also accepts spaces, `+`, decimals, exponents and hexadecimal, and yields `NaN` otherwise. The model reads only an optional `-` and decimal digits per field and returns none for anything else. The round trip with `key` is unaffected.
- Coords.ParseKeyOfKey: JavaScript numbers are doubles. Coordinates are unbounded integers, and fractional or non-finite coordinates are not modelled.
- ChessLogic.MakeMove: the optional `promo` is a promotion choice (`Promotion`). A king or pawn passed as the promotion piece type is not modelled.
- ContentStore.StrLt: JavaScript's default sort compares UTF-16 code units. The model compares `char` values, which agree on the strings of the data.
- Puzzle sizes and difficulties are restricted to 5..8 and 1..5. The objective type is a free string.
- AcceptedIffLegal: stated only for positions with at most one piece per square. With stacked pieces, the piece checked for colour and the piece moved by the engine can differ.
- The content store's `Filters` type is not in the available source. It is modelled as four optional criteria, matching the fields `applyFilters` reads.

## Findings

| source | as written | input that shows it | evidently intended | confidence | as-written member | corrected member |
|---|---|---|---|---|---|---|
| data/ContentStore.ts:33-36 | the index is `Math.floor(ms / 86400000) % length`; JavaScript's `%` keeps the dividend's sign, so before 1970 the index is negative and the declared `Puzzle` result is `undefined` | ms = -1 with two puzzles: day -1, index -1, no puzzle | a puzzle for every date, cycling through the list | medium: needs a clock set before 1970; not executed | ContentStore.DailyBeforeEpoch | ContentStore.NextDayWrapped |
