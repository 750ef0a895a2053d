# Turkish draughts (Dama) rules engine, in Dafny

This project models the rules engine of a Turkish draughts game and the game
slice that drives it. The rules engine is `src/utils/rules.js`; the slice is
`src/features/gameSlice.js`.

The board has 64 cells in row-major order. The square at rank `r` and file `c`
(both 1-based) has index `(r - 1) * 8 + (c - 1)`. A cell is empty or holds a
piece `{player, isKing}`. Side A starts on ranks 2 and 3 and advances toward
rank 8; side B starts on ranks 6 and 7 and advances toward rank 1.

- A man steps one square forward or one square sideways onto an empty cell.
- A king slides any distance along its rank or file over empty cells.
- Capture is mandatory, and only the longest capture sequences found anywhere
  on the board may be played.
- A man captures forward, left or right over an adjacent opponent piece. If it
  lands on its promotion rank, it is crowned and the sequence ends there.
- A king captures the first piece it meets in a direction, if that piece is an
  opponent's. It may land on any empty cell beyond that piece, and the search
  goes on from there.
- A side with no pieces loses. So does a side to move that has neither a
  capture nor a simple move.

Modules follow the source:

| file | module | models |
|---|---|---|
| `board.dfy` | `BoardModel` | cells, squares, coordinates, `rowOf`/`colOf`/`inBoard`/`opponent`, rays along a rank or file, piece counts, one jump, promotion |
| `initial_board.dfy` | `InitialPosition` | `createInitialBoard` |
| `simple_moves.dfy` | `SimpleMoves` | `generateAllMovesForPlayer`: the list it builds as functions, the loops as methods, and the rules the list meets |
| `captures.dfy` | `Captures` | `generateCapturesFrom` and `generateAllCapturesForPlayer` as functions, plus a reference definition of a complete capture sequence |
| `capture_search.dfy` | `CaptureSearch` | the same two operations as the source's loops and recursion |
| `move_applier.dfy` | `MoveApplier` | `applyMoveOnBoard` |
| `game_over.dfy` | `GameOver` | `isGameOverCheck` |
| `game_slice.dfy` | `GameSlice` | the slice state as a class, and the reducers `restart`, `selectSquare`, `tryMove`, `setSettings` |

Each loop of the source is a Dafny method. Its `ensures` ties the result to a
function that builds the same list in the same order. Lemmas then relate those
functions to reference predicates that state the rules directly:

- `LegalSimpleMove` for simple moves;
- `LegalJump`, `Complete` and `LegalCapture` for capture sequences;
- `HasPieces` and `Stuck` for the end of the game.

The capture recursion terminates because the number of opponent pieces drops by
one at each jump (`JumpRemovesOne`).

The rules engine's functions are pure. The slice is a class whose methods assign
its fields. They are specified by functions on a value `GameView` of all the
fields, and they keep the same invariant, `ValidView`.

Where the code and a reader's expectation differ, the model follows the code:

- `applyMoveOnBoard` on an empty origin returns the board it was given, with no
  capture and no promotion. It does not fail.
- `applyMoveOnBoard` clears each jumped square without checking that it holds a
  piece.
- A man captures forward, left and right only, never backward.
- `tryMove` applies whatever move or capture sequence it is given. It does not
  check the payload against the moves offered. `EmptyOriginIsRecorded` shows
  that a move from an empty square is recorded as a move played.

## Model

| member | source | states |
|---|---|---|
| BoardModel.Opponent | src/utils/rules.js:38 | the opponent is the other side |
| BoardModel.CoordToIndex | src/utils/rules.js:5-9 | a file in 'a'..'h' and a rank in 1..8 give an index in 0..63 whose rank and file are exactly those; outside that range no check is made |
| BoardModel.InBoardSquare | src/utils/rules.js:36 | inBoard holds exactly for the rank and file of a square: an in-board pair gives an index `(r-1)*8+(c-1)` in 0..63 with that rank and file, an off-board pair is the rank and file of no square |
| BoardModel.IndexToCoord | src/utils/rules.js:10-14 | the file is in 'a'..'h' and the rank in 1..8, and coordToIndex of the result gives back the index |
| BoardModel.CoordRoundTrip | src/utils/rules.js:5-14 | for a file in 'a'..'h' and a rank in 1..8, coordToIndex lies in 0..63 and indexToCoord of it gives back the same file and rank |
| BoardModel.RowOf | src/utils/rules.js:34 | the rank of a square is in 1..8 |
| BoardModel.ColOf | src/utils/rules.js:35 | the file of a square is in 1..8 |
| BoardModel.IndexOf | src/utils/rules.js:50 | the index `(r-1)*8+(c-1)` of an in-board rank and file has exactly that rank and file |
| BoardModel.IndexOfRowCol | src/utils/rules.js:34-35 | every index is recovered from its rank and file |
| BoardModel.RayShape | src/utils/rules.js:63-71 | the king's scan along a direction yields, in order, the squares at distance 1, 2, ...; all are empty, and it stops at the first square that is off the board or occupied |
| BoardModel.RayExactly | src/utils/rules.js:63-71 | a square is on the scan exactly when it is reached over empty squares only |
| BoardModel.CountOf | src/utils/rules.js:231-237 | a piece count never exceeds the number of cells |
| BoardModel.CountZeroIff | src/utils/rules.js:231-239 | a side's count is 0 exactly when no cell holds a piece of that side |
| BoardModel.JumpRemovesOne | src/utils/rules.js:116-119 | a jump over an opponent piece onto an empty square removes exactly one opponent piece and none of the mover's |
| BoardModel.PromotionRank | src/utils/rules.js:121 | rank 8 is the promotion rank of A, rank 1 that of B |
| InitialPosition.InitialBoard | src/utils/rules.js:16-32 | every piece is a man; A pieces fill exactly ranks 2-3, B pieces exactly ranks 6-7, and ranks 1, 4, 5 and 8 are empty |
| InitialPosition.CreateInitialBoard | src/utils/rules.js:16-32 | the nested rank/file loops build exactly the starting position |
| InitialPosition.InitialPrefixCounts | src/utils/rules.js:18-30 | the number of A and of B pieces among the first k cells of the starting position |
| InitialPosition.InitialCounts | src/utils/rules.js:16-32 | each side starts with 16 pieces |
| SimpleMoves.ManStepIsTarget | src/utils/rules.js:45-59 | a man's three step directions reach exactly the empty squares one rank forward on its file or one file aside on its rank, never backward |
| SimpleMoves.ManMovesMember | src/utils/rules.js:45-59 | a man's move list holds exactly its one-step moves onto empty on-board squares in its three directions |
| SimpleMoves.KingMovesSound | src/utils/rules.js:60-72 | every king move listed reaches its target over empty squares along one direction |
| SimpleMoves.KingMovesComplete | src/utils/rules.js:60-72 | every square a king reaches over empty squares is listed |
| SimpleMoves.KingMovesExact | src/utils/rules.js:60-72 | both directions of the king's move rule |
| SimpleMoves.PieceMovesExact | src/utils/rules.js:43-73 | a square's move list holds exactly the legal simple moves of the piece on it |
| SimpleMoves.AllMovesExact | src/utils/rules.js:40-76 | a move is generated exactly when it is legal: a piece of the player moves onto an empty square, a man one step forward or sideways, a king along a clear line |
| SimpleMoves.KingMovesAlongRay | src/utils/rules.js:60-72 | a king's destinations are exactly the empty squares before the first occupied square or the edge in some direction |
| SimpleMoves.StepTo | src/utils/rules.js:49-58 | the index arithmetic of one man step gives the step of the move list |
| SimpleMoves.ManMovesAt | src/utils/rules.js:45-59 | the forward step, then the loop over the two sideways steps, build the man's move list |
| SimpleMoves.KingRayMoves | src/utils/rules.js:63-71 | the `while (true)` scan builds the king's moves in one direction |
| SimpleMoves.KingMovesAt | src/utils/rules.js:60-72 | the loop over the four directions builds the king's move list |
| SimpleMoves.GenerateAllMovesForPlayer | src/utils/rules.js:40-76 | the loop over the 64 squares returns the generated move list, which AllMovesExact characterises |
| Captures.Extend | src/utils/rules.js:126-130 | a jump yields at least one sequence, alone or before each continuation |
| Captures.ManJumpMember | src/utils/rules.js:107-119 | a man's sequences in one direction start with the jump over the adjacent opponent onto the empty square beyond |
| Captures.ManFirstJumpSound | src/utils/rules.js:100-134 | every sequence of a man starts with a legal forward or sideways jump |
| Captures.ManFirstJumpComplete | src/utils/rules.js:100-134 | every legal first jump of a man is continued in the list |
| Captures.LandingsBeyondSound | src/utils/rules.js:160-167 | each king landing square is an empty square beyond the jumped piece, reached over empty squares |
| Captures.LandingsBeyondComplete | src/utils/rules.js:160-167 | every empty square beyond the jumped piece reached over empty squares is a landing square |
| Captures.ScanOffBoard | src/utils/rules.js:145 | no king jump starts beyond the edge of the board |
| Captures.ScanPasses | src/utils/rules.js:147 | an empty square does not change which pieces the scan can still jump |
| Captures.ScanStops | src/utils/rules.js:148-181 | a king can only jump the first occupied square it meets in a direction |
| Captures.ScanLands | src/utils/rules.js:150-177 | a king jumping an opponent lands on an empty square beyond the piece, over empty squares |
| Captures.ScanHitSound | src/utils/rules.js:148-179 | every sequence found at the first occupied square starts with a king jump over it |
| Captures.ScanHitComplete | src/utils/rules.js:148-179 | every king jump over the first occupied square, an opponent, is continued in the list |
| Captures.KingScanMember | src/utils/rules.js:143-183 | a king's sequences in a direction are exactly the continuations of its jumps over the first piece met, which must be an opponent's; an own piece or the edge gives none |
| Captures.KingFirstJumpSound | src/utils/rules.js:135-186 | every sequence of a king starts with a legal king jump |
| Captures.KingFirstJumpComplete | src/utils/rules.js:135-186 | every legal first jump of a king is continued in the list |
| Captures.FirstJump | src/utils/rules.js:97-187 | a sequence is generated exactly when it is a continuation of a legal first jump |
| Captures.CapturesEmptyIff | src/utils/rules.js:97-187 | a piece has no sequence exactly when it has no legal jump |
| Captures.CapturesExact | src/utils/rules.js:97-187 | a sequence is generated exactly when it is complete: each jump legal on the board the earlier jumps left, a man stopping at promotion, and no jump possible at the end |
| Captures.CompleteRuns | src/utils/rules.js:115-131 | a complete sequence can be carried out jump by jump, each over an opponent piece onto an empty square |
| Captures.JumpedHeldOpponent | src/utils/rules.js:115-119 | at each step of a generated sequence the piece stands on its current square, the jumped square holds an opponent piece and the landing square is empty |
| Captures.RunsHeld | src/utils/rules.js:115-119 | the same for a sequence that can be carried out |
| Captures.NotOpponentNeverJumped | src/utils/rules.js:115-119 | a square not holding an opponent piece is never jumped |
| Captures.JumpsDistinct | src/utils/rules.js:116-119 | no square is jumped twice in a generated sequence |
| Captures.RunsDistinct | src/utils/rules.js:116-119 | the same for a sequence that can be carried out |
| Captures.ManStopsOnPromotion | src/utils/rules.js:120-124 | no step of a man's sequence but the last lands on its promotion rank |
| Captures.RunsStopOnPromotion | src/utils/rules.js:120-124 | the same for a man's sequence that can be carried out |
| Captures.MaxLength | src/utils/rules.js:89-92 | `maxCaptured` bounds every length and is attained when there are entries |
| Captures.KeepLength | src/utils/rules.js:93 | the filter keeps exactly the entries of the given length |
| Captures.TagMember | src/utils/rules.js:84-86 | an entry is tagged exactly when its sequence is one of the piece's |
| Captures.CollectedExact | src/utils/rules.js:80-87 | the collected entries are exactly the legal capture sequences of the side's pieces |
| Captures.AllCapturesLongest | src/utils/rules.js:78-95 | an entry is returned exactly when it is a legal capture and no legal capture of the side is longer |
| Captures.AllCapturesSameLength | src/utils/rules.js:89-93 | all returned entries have the same length |
| Captures.AllCapturesEmptyIff | src/utils/rules.js:78-95 | the result is empty exactly when no piece of the side can jump |
| CaptureSearch.GenerateCapturesFrom | src/utils/rules.js:97-187 | the recursive search returns the specified sequences, which CapturesExact characterises |
| CaptureSearch.JumpAndContinue | src/utils/rules.js:116-131 | the scratch copy, the promotion cut and the recursive call give the sequences starting with a jump |
| CaptureSearch.ManCaptureSearch | src/utils/rules.js:100-134 | the loop over forward, left and right gives a man's sequences |
| CaptureSearch.ManDirSearch | src/utils/rules.js:108-132 | the in-board and occupancy tests give a man's sequences in one direction |
| CaptureSearch.KingCaptureSearch | src/utils/rules.js:135-186 | the loop over the four directions gives a king's sequences |
| CaptureSearch.KingDirSearch | src/utils/rules.js:141-183 | the `while (true)` scan gives a king's sequences in one direction |
| CaptureSearch.KingHit | src/utils/rules.js:148-179 | the handling of the first opponent piece met gives the sequences from there |
| CaptureSearch.ScanOff | src/utils/rules.js:145 | leaving the board ends the scan with nothing |
| CaptureSearch.ScanEmpty | src/utils/rules.js:147 | an empty square lets the scan go on |
| CaptureSearch.ScanOwn | src/utils/rules.js:180-182 | an own piece ends the scan with nothing |
| CaptureSearch.KingLandingSearch | src/utils/rules.js:150-178 | the `anyLanding` test and the landing loop give the sequences over one opponent piece |
| CaptureSearch.AnyLanding | src/utils/rules.js:150-159 | `anyLanding` is true exactly when the square beyond the piece is on the board and empty |
| CaptureSearch.LandingJumps | src/utils/rules.js:160-177 | the landing loop gives the sequences for each landing square in order |
| CaptureSearch.LandOn | src/utils/rules.js:168-175 | one landing square adds its sequences |
| CaptureSearch.GenerateAllCapturesForPlayer | src/utils/rules.js:78-95 | the collect, maximum and filter loops return the entries AllCapturesLongest characterises |
| CaptureSearch.TagAll | src/utils/rules.js:84-86 | each sequence of a piece is tagged with its start |
| CaptureSearch.LongestLength | src/utils/rules.js:89-92 | the loop computes `maxCaptured` |
| CaptureSearch.FilterLength | src/utils/rules.js:93 | the filter keeps the entries of maximal length in order |
| MoveApplier.Crowned | src/utils/rules.js:203 | a crowned piece is a king of the same side |
| MoveApplier.ApplyMove | src/utils/rules.js:189-228 | an empty origin returns the given board with nothing captured or promoted; a simple move throws exactly when it targets its own square and captures nothing; a capture counts at most its steps |
| MoveApplier.ApplyJumps | src/utils/rules.js:207-225 | the count grows by the steps processed: all of them unless the piece is crowned, which stops the loop after at least one |
| MoveApplier.ApplyMoveOnBoard | src/utils/rules.js:189-228 | the cell-by-cell writes to the copy give the specified outcome |
| MoveApplier.Landed | src/utils/rules.js:217-223 | only the landing square changes; its piece keeps its side and is a king exactly when it was one or reached its promotion rank |
| MoveApplier.JumpsStopAtCrowning | src/utils/rules.js:206-225 | the loop processes the steps up to the first crowning one, or all of them; `captured` counts them and the board is the one their jumps leave, crowned if `promoted` |
| MoveApplier.JumpsBeforeCrowning | src/utils/rules.js:208-225 | no processed step before the last crowns the piece |
| MoveApplier.JumpsCrowned | src/utils/rules.js:218-223 | when `promoted`, the last processed step crowns the piece |
| MoveApplier.JumpsUncrowned | src/utils/rules.js:208-225 | when not `promoted`, every step is processed and none crowns the piece |
| MoveApplier.CompleteApplies | src/utils/rules.js:206-225 | a complete sequence is played in full: nothing throws, one opponent piece goes per step, the piece ends on the last landing square and is crowned only when a man ends on its promotion rank |
| MoveApplier.RunsBoard | src/utils/rules.js:208-216 | the jumps leave the piece on its last square and remove one opponent piece each |
| MoveApplier.RunsApply | src/utils/rules.js:208-225 | the loop runs to the last step and crowns only there |
| MoveApplier.JumpThrough | src/utils/rules.js:208-224 | a step that does not crown passes the rest of the steps on |
| MoveApplier.JumpLast | src/utils/rules.js:208-225 | the last step ends the loop |
| MoveApplier.ThrowsAtShift | src/utils/rules.js:208-224 | after a step that neither erases nor crowns the piece, a throw at the next step is a throw of the remaining steps |
| MoveApplier.JumpsThrow | src/utils/rules.js:208-225 | the capture loop throws exactly when some step lands on the piece's current square or on its own jumped square, with no earlier step having done so or crowned the piece |
| MoveApplier.CaptureThrows | src/utils/rules.js:189-225 | applyMoveOnBoard throws on a capture exactly when the origin holds a piece and such a step occurs |
| MoveApplier.PlainMoveApplies | src/utils/rules.js:196-205 | any simple move from an occupied square onto another square copies the piece there, crowns it exactly when a man reaches its promotion rank, clears its square, changes nothing else and captures nothing |
| MoveApplier.LandedCounts | src/utils/rules.js:217-223 | crowning keeps every side's piece count |
| MoveApplier.LegalCaptureApplies | src/utils/rules.js:206-225 | a legal capture captures one piece per step and none of the mover's, sets `promoted` exactly when a man ends on its promotion rank, and leaves the piece there |
| MoveApplier.RunsMove | src/utils/rules.js:206-225 | the same for a sequence that can be carried out |
| MoveApplier.GeneratedCaptureApplies | src/utils/rules.js:78-95 | every generated capture is legal and is played in full |
| MoveApplier.LegalMoveEmptyTarget | src/utils/rules.js:51 | a legal simple move targets an empty square other than its start |
| MoveApplier.LegalMoveApplies | src/utils/rules.js:196-205 | a legal simple move moves the piece, crowns it exactly when a man reaches its promotion rank, captures nothing and changes no other square |
| MoveApplier.GeneratedMoveApplies | src/utils/rules.js:40-76 | every generated simple move is legal and is played without error |
| GameOver.HasPiecesIff | src/utils/rules.js:231-239 | a zero count means the side has no piece |
| GameOver.NoMovesIff | src/utils/rules.js:242-243 | no simple move is generated exactly when none is legal |
| GameOver.GameOverMeaning | src/utils/rules.js:230-248 | no A piece: B wins; else no B piece: A wins; else the side to move loses exactly when it can neither capture nor move; otherwise play goes on |
| GameOver.IsGameOverCheck | src/utils/rules.js:230-248 | the counting loop and the generator calls return that verdict |
| GameSlice.Merge | src/features/gameSlice.js:124 | each field given by the patch overrides the current one; the others are kept |
| GameSlice.CaptureChoices | src/features/gameSlice.js:53-54 | the capture choices are exactly the capture entries that start on the square |
| GameSlice.MoveChoices | src/features/gameSlice.js:57-58 | the move choices are exactly the simple moves that start on the square |
| GameSlice.ChoicesMeaning | src/features/gameSlice.js:46-59 | while the side has a capture, a piece is offered exactly its legal captures of maximal length; otherwise exactly its legal simple moves |
| GameSlice.ChoicesPlayable | src/features/gameSlice.js:79-93 | every offered move is applied without error, and an offered capture captures one piece per step |
| GameSlice.PayloadAction | src/features/gameSlice.js:79-96 | a move payload is applied as a move, a capture payload as a capture, and any other type as nothing |
| GameSlice.InitialView | src/features/gameSlice.js:13-27 | the initial board, A to move, no selection or choices, an empty history, the default settings, counter 0, no winner |
| GameSlice.RestartView | src/features/gameSlice.js:33-42 | every field but the settings returns to its initial value |
| GameSlice.SelectView | src/features/gameSlice.js:43-64 | a finished game or a square without an own piece changes nothing; otherwise the square is selected with its choices; the invariant is kept |
| GameSlice.Recorded | src/features/gameSlice.js:99-102 | the new board and one more history entry; the side to move and the winner are kept |
| GameSlice.Concluded | src/features/gameSlice.js:105-121 | the check for the other side either sets the winner with the mover kept, or passes the turn |
| GameSlice.AfterMove | src/features/gameSlice.js:98-121 | after an applied move: the new board, one more history entry, the counter reset by a capture or increased, no selection, then the winner set or the turn passed; the invariant holds |
| GameSlice.TryMoveView | src/features/gameSlice.js:65-122 | a thrown error leaves the state as it was; the invariant is kept |
| GameSlice.TryMoveRaises | src/features/gameSlice.js:65-96 | tryMove raises on a capture payload exactly when the game is on, the origin is occupied and a step erases the piece before it is crowned; on a move payload exactly when the game is on, no capture is pending and an occupied origin moves onto itself; never on another payload |
| GameSlice.TryMoveGuards | src/features/gameSlice.js:66-96 | a finished game or an unknown payload changes nothing; a simple move while a capture exists only sets the message; otherwise the error is raised exactly when the applier throws, and the move is recorded when it does not |
| GameSlice.OfferedMoveIsPlayed | src/features/gameSlice.js:65-122 | an offered move never raises and is recorded; an offered capture resets the counter |
| GameSlice.EmptyOriginIsRecorded | src/features/gameSlice.js:79-102 | a move from an empty square raises nothing and is recorded with the board unchanged |
| GameSlice.SettingsView | src/features/gameSlice.js:123-125 | only the settings change, to the merge |
| GameSlice.GameState.constructor | src/features/gameSlice.js:11-27 | the new state is the initial state and meets the invariant |
| GameSlice.GameState.Restart | src/features/gameSlice.js:33-42 | the state becomes RestartView of the old one |
| GameSlice.GameState.SelectSquare | src/features/gameSlice.js:43-64 | the state becomes SelectView of the old one |
| GameSlice.GameState.TryMove | src/features/gameSlice.js:65-122 | the state and the raised flag are TryMoveView of the old state |
| GameSlice.GameState.RecordMove | src/features/gameSlice.js:98-121 | the state becomes AfterMove of the old one |
| GameSlice.GameState.Conclude | src/features/gameSlice.js:104-121 | the state becomes Concluded of the old one |
| GameSlice.GameState.SetSettings | src/features/gameSlice.js:123-125 | the state becomes SettingsView of the old one |

## Left out

- The React components (`src/App.jsx`, `src/components/`) are not part of this model. They render the board and route clicks.
- Redux Toolkit plumbing (`createSlice`, Immer drafts, action creators) is also left out. The reducers are methods of `GameSlice.GameState`.
- `cloneBoard` and `JSON.parse(JSON.stringify(...))` are not modelled as serialisation. A board is a value, so every copy is a copy and the input board of `applyMoveOnBoard` is unchanged by construction.
- The status messages are not modelled as Turkish text. They are the enumeration `Message`, and `isGameOverCheck`'s message is its `EndReason`.
- The settings `tieBreak`, `noCaptureLimit` and `allowRevisitSquare` are stored and merged but never read. The `settings` parameter of `generateAllCapturesForPlayer` and `generateCapturesFrom` is dropped.
- The source's `TypeError` is the outcome `Thrown`. It happens when a piece is copied to a cell that the same step then clears: a move onto its own square, or a capture step that lands on the square the piece stands on or on the square it jumps (`JumpsThrow`, `CaptureThrows`). `tryMove` then leaves the state unchanged, as a reducer that throws does.
- A move passed to `applyMoveOnBoard` whose type is neither "move" nor "capture" is not modelled. It would return the copy unchanged, and `tryMove` never passes one.
- Indices are the subset type `Square` (0..63). Payload indices outside the board, and non-integer indices, are not modelled.
- `coordToIndex` takes a Dafny `char` and an `int`. It makes no range check, just as the source makes none.
- The truthiness test `if (state.winner)` is modelled as "a winner is set".
- `selectSquare` on a square without an own piece leaves the state as it is, in both branches of the source.
