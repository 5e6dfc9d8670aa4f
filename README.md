# Chess game core in Dafny

This project models the core of a browser chess game. The game has these parts:

- an 8x8 board of optional pieces;
- a move generator for each piece kind, covering forward and diagonal pawn moves, knight and king jumps, and bishop, rook and queen rays. It does not filter out moves that leave the king in check, and it has no castling, en passant or promotion;
- short algebraic notation for every move played;
- a game state record with the history, the side to move, the selection and the clocks;
- the game screen's transitions: clicking squares, resigning, running out of time, starting a new game, taking a move back, and the computer's turn;
- the move list beside the board, which pairs White's and Black's moves into numbered rows;
- the clock component, which formats the remaining time and ticks down once a second.

The model follows the structure of the program:

| module | file | models |
|---|---|---|
| `BoardModel` | `board_model.dfy` | pieces, squares, the board. The starting position is built in place on an `array2` (`initialBoard`), and `cloneBoard` copies it |
| `MoveGen` | `move_gen.dfy` | the move generators. Each loop that pushes destinations is a method, proved equal to a function that states the rule |
| `Notation` | `notation.dfy` | `generateMoveNotation`, plus a reader for the notation used to prove that nothing is lost |
| `GameEngine` | `game_engine.dfy` | `GameState`, `initialGameState` and `makeMove`, which clones the board and writes two cells |
| `Opponent` | `opponent.dfy` | `generateAiMove`: collect the pieces of the side to move, shuffle them, and take a random destination of the first piece that has one |
| `Play` | `play.dfy` | the handlers of the game screen. The undo handler replays the shortened history on a fresh board, in a loop |
| `MoveHistory` | `move_history.dfy` | the pairing loop of the move list and its empty placeholder |
| `ChessTimer` | `chess_timer.dfy` | `formatTime`, the low-time flag, the tick rule, and the reset on a new `time` value |

The central invariant is `Play.Inv`: the board and the side to move are what replaying the history from the starting position gives. Every move in that replay found a piece on its origin. Every transition of the game screen keeps `Inv`. From it follow:

- White is to move exactly after an even number of moves;
- playing a move and taking it back restores the board, the side to move and the history.

## Model

| member | source | states |
|---|---|---|
| BoardModel.Opposite | src/lib/chess-engine.ts:412 | the side that moves next is never the side that just moved |
| BoardModel.InBoundsSquare | src/lib/chess-engine.ts:105-107 | a row and column pass the bounds check exactly when they name one of the 64 squares of the board |
| BoardModel.InitialCell | src/lib/chess-engine.ts:52-82 | in the starting position a cell is occupied exactly on rows 0, 1, 6 and 7. White owns rows 0-1 and Black rows 6-7. Pawns stand exactly on rows 1 and 6, kings exactly at (0,4) and (7,4). No piece has moved |
| BoardModel.Initial | src/lib/chess-engine.ts:49-85 | in the starting position exactly rows 0-1 and 6-7 are occupied, so rows 2-5 are empty. The pieces on rows 0-1 are White and those on rows 6-7 Black, and none has moved. The kings stand on (0,4) and (7,4). Every cell holds the starting piece described for `InitialCell` |
| BoardModel.InitialBoard | src/lib/chess-engine.ts:49-85 | filling a fresh empty 8x8 array in the program's order (pawn rows in a loop, then rooks, knights, bishops, queens, kings) produces exactly the starting position |
| BoardModel.SetUpPawns | src/lib/chess-engine.ts:52-56 | the loop over the eight files puts a white pawn on row 1 and a black pawn on row 6 of each file and leaves every other cell empty |
| BoardModel.SetUpRooks | src/lib/chess-engine.ts:58-62 | the four rooks go to the corners, and every other cell is unchanged |
| BoardModel.SetUpKnights | src/lib/chess-engine.ts:64-68 | the four knights go to files b and g of the back ranks, and every other cell is unchanged |
| BoardModel.SetUpBishops | src/lib/chess-engine.ts:70-74 | the four bishops go to files c and f of the back ranks, and every other cell is unchanged |
| BoardModel.SetUpQueens | src/lib/chess-engine.ts:76-78 | the queens go to file d, and every other cell is unchanged |
| BoardModel.SetUpKings | src/lib/chess-engine.ts:80-82 | the kings go to file e, which completes the starting position |
| BoardModel.CloneBoard | src/lib/chess-engine.ts:44-46 | the copy is a fresh array with the same contents as the board |
| MoveGen.RaySteps | src/lib/chess-engine.ts:189-205 | a ray starts at the first square beyond the piece and advances one step of its direction at a time |
| MoveGen.RayOverEmpty | src/lib/chess-engine.ts:193-205 | every square of a ray except possibly the last is empty, so only empty squares lie between the piece and any square it reaches |
| MoveGen.RayStops | src/lib/chess-engine.ts:193-205 | a ray is empty exactly when its first square is off the board or holds an own piece. Otherwise its last square holds an enemy piece (the capture that ends the walk), or the next step is off the board or on an own piece |
| MoveGen.RaySound | src/lib/chess-engine.ts:194-199 | a ray never reaches a square holding a piece of the mover's colour |
| MoveGen.RaysSound | src/lib/chess-engine.ts:189-206 | no ray in any direction reaches a square of the mover's colour |
| MoveGen.Steps | src/lib/chess-engine.ts:162-169 | the jump generator yields at most one square per offset, never a square of the mover's colour |
| MoveGen.PawnCaptures | src/lib/chess-engine.ts:131-138 | a pawn's diagonal moves land only on squares holding an enemy piece |
| MoveGen.LegalMoves | src/lib/chess-engine.ts:293-326 | an empty square has no moves. Otherwise no destination holds a piece of the mover's colour and no destination is the origin. Every destination is on the board, by the type of squares |
| MoveGen.PawnCapturesSound | src/lib/chess-engine.ts:117-138 | no pawn move lands on a piece of the pawn's colour |
| MoveGen.GetPawnMoves | src/lib/chess-engine.ts:110-141 | the pawn generator's pushes produce exactly the advances followed by the captures towards columns -1 and +1 |
| MoveGen.GetPawnAdvances | src/lib/chess-engine.ts:117-128 | the forward pushes: one step onto an empty square, then two steps from the starting row when that square is empty too |
| MoveGen.GetStepMoves | src/lib/chess-engine.ts:162-169 | the loop over an offset table yields the specified jumps in table order |
| MoveGen.WalkRay | src/lib/chess-engine.ts:190-205 | the `while` walk in one direction yields exactly the ray in that direction |
| MoveGen.GetSlidingMoves | src/lib/chess-engine.ts:189-206 | walking the directions in order concatenates their rays in that order |
| MoveGen.GetKnightMoves | src/lib/chess-engine.ts:144-172 | the knight's moves are the eight-jump table's destinations |
| MoveGen.GetBishopMoves | src/lib/chess-engine.ts:175-209 | the bishop's moves are its four diagonal rays in the program's order |
| MoveGen.GetRookMoves | src/lib/chess-engine.ts:212-246 | the rook's moves are its four straight rays in the program's order |
| MoveGen.GetQueenMoves | src/lib/chess-engine.ts:249-259 | the queen's moves are the bishop's moves followed by the rook's moves |
| MoveGen.GetKingMoves | src/lib/chess-engine.ts:262-290 | the king's moves are the one-step table's destinations |
| MoveGen.GetLegalMoves | src/lib/chess-engine.ts:293-326 | the dispatch on the piece kind produces the piece's moves, and none for an empty square |
| MoveGen.StepsExact | src/lib/chess-engine.ts:162-169 | a square is produced exactly when it is the origin plus one of the offsets and does not hold an own piece. Empty and enemy-held squares both qualify |
| MoveGen.KnightMovesExact | src/lib/chess-engine.ts:150-169 | a knight has at most 8 moves, exactly its jumps onto squares not holding its own pieces |
| MoveGen.KingMovesExact | src/lib/chess-engine.ts:268-287 | a king has at most 8 moves, exactly its single steps onto squares not holding its own pieces |
| MoveGen.PawnMovesExact | src/lib/chess-engine.ts:116-140 | a pawn moves exactly to one of three kinds of square: one step forward (+1 for White, -1 for Black) onto an empty square; two steps from its starting row when both squares are empty; one step diagonally forward onto an enemy piece |
| MoveGen.PawnAdvancesExact | src/lib/chess-engine.ts:121-127 | the forward moves are exactly the empty one-step square and, from the starting row, the two-step square when both squares are empty |
| MoveGen.PawnCapturesExact | src/lib/chess-engine.ts:131-138 | the diagonal moves are exactly the two forward diagonals that hold an enemy piece |
| MoveGen.PawnCapturesBothSides | src/lib/chess-engine.ts:131 | the captures are tried towards column -1 first, then +1 |
| MoveGen.InitialPawnMoves | src/lib/chess-engine.ts:117-138 | in the starting position every pawn has exactly two moves, its one- and two-step advances |
| MoveGen.ClearFile | src/lib/chess-engine.ts:230-242 | along an empty file the upward ray reaches every remaining square of that file |
| MoveGen.ClearRank | src/lib/chess-engine.ts:230-242 | along an empty rank the rightward ray reaches every remaining square of that rank |
| MoveGen.RookRays | src/lib/chess-engine.ts:219-243 | the rook's moves are its up, down, right and left rays, in that order |
| MoveGen.CornerRookRays | src/lib/chess-engine.ts:212-246 | a rook on (0,0) moves only up its file, then along its rank |
| MoveGen.CornerRookMoves | src/lib/chess-engine.ts:212-246 | a rook on (0,0) with an otherwise empty file and rank has exactly 14 moves: the other squares of row 0 and column 0 |
| MoveGen.RankAndFile | src/lib/chess-engine.ts:226-243 | the seven file squares followed by the seven rank squares are 14 squares, each on exactly one of the two lines |
| Notation.Letter | src/lib/chess-engine.ts:346-363 | every non-pawn piece is written with one of K, Q, R, B, N |
| Notation.MoveNotation | src/lib/chess-engine.ts:329-374 | the text is 2 to 4 characters long and ends with the destination's file and rank. It contains `x` exactly for a capture. A non-pawn starts with its letter. A pawn is written with the destination alone when it does not capture, and with its origin file first when it captures |
| Notation.FileIndex | src/lib/chess-engine.ts:336-340 | every column has its own file letter |
| Notation.RankIndex | src/lib/chess-engine.ts:337-341 | every row has its own rank digit |
| Notation.SquareCharsRoundTrip | src/lib/chess-engine.ts:340-341 | a square's file letter and rank digit name that square and no other |
| Notation.ParseCompose | src/lib/chess-engine.ts:367-371 | a prefix, the optional `x` and the destination split back into their parts |
| Notation.FileIsNotLetter | src/lib/chess-engine.ts:336-363 | no file letter is a piece letter, so a capturing pawn's prefix cannot be read as a piece |
| Notation.LetterRoundTrip | src/lib/chess-engine.ts:346-363 | each piece letter names exactly one kind |
| Notation.NotationRoundTrip | src/lib/chess-engine.ts:329-374 | the text of a move determines the moving kind, the file a capturing pawn left, whether it captured, and the destination |
| Notation.PawnAdvanceExample | src/lib/chess-engine.ts:359-371 | a pawn from e2 to e4 is written `e4` |
| Notation.CaptureExamples | src/lib/chess-engine.ts:346-371 | a pawn taking from d4 on e5 is `dxe5`, a knight taking on e5 is `Nxe5` |
| GameEngine.NewInitialGameState | src/lib/chess-engine.ts:88-102 | the initial state is built on the board `initialBoard` produces |
| GameEngine.InitialGameState | src/lib/chess-engine.ts:88-102 | the initial state has White to move, no moves, 600 seconds on each clock, status playing, no winner, no selection, and the starting board |
| GameEngine.MoveOnBoard | src/lib/chess-engine.ts:392-394 | a move always leaves the origin empty. When origin and destination differ, the destination holds the moved piece marked as moved, whatever stood there before |
| GameEngine.MoveOnBoardCells | src/lib/chess-engine.ts:392-394 | a move changes no cell other than its origin and its destination |
| GameEngine.MakeMove | src/lib/chess-engine.ts:377-417 | working on a copy of the board, the move gives exactly the specified next state, and the input state is a value, untouched |
| GameEngine.AfterMove | src/lib/chess-engine.ts:377-417 | the state changes exactly when the origin holds a piece of the side to move. A move from an empty square or an opponent's square returns the state unchanged |
| GameEngine.AfterMoveEffect | src/lib/chess-engine.ts:383-416 | an accepted move appends one record holding the piece as it stood, the previous occupant of the destination, no promotion, and the notation `generateMoveNotation` gives for the move. It leaves the earlier history alone and passes the turn. It applies the board change and clears the selection. Clocks, status, check flags and winner are kept |
| Opponent.RowSquaresExact | src/lib/chess-engine.ts:426-431 | the inner scan of a row lists exactly the squares of that row, up to the column reached, that hold a piece of the side |
| Opponent.OwnSquaresExact | src/lib/chess-engine.ts:425-432 | the scan of the first rows lists exactly the squares of those rows that hold a piece of the side |
| Opponent.CollectPieces | src/lib/chess-engine.ts:425-432 | the nested loops collect the side's squares in row-major order |
| Opponent.ReorderedPieces | src/lib/chess-engine.ts:435 | any shuffle of the collected squares holds exactly the squares of the side's pieces |
| Opponent.ScanFoundNothing | src/lib/chess-engine.ts:438-450 | a scan that finds no destination for any listed piece means that no piece of the side can move |
| Opponent.GenerateAiMove | src/lib/chess-engine.ts:420-451 | there is no move exactly when no piece of the side to move has a destination. Otherwise the move starts on a piece of the side to move and goes to one of that piece's generated destinations |
| Opponent.FirstMovable | src/lib/chess-engine.ts:438-450 | the scan stops at the first listed piece with destinations and picks one of them: every piece listed before it has none. With no such piece, every listed piece has none |
| Opponent.InitialRowCount | src/lib/chess-engine.ts:426-431 | in the starting position each of a side's two rows holds eight of its pieces, and other rows none |
| Opponent.InitialCount | src/lib/chess-engine.ts:425-432 | the scan of the starting position counts eight pieces per row of each side |
| Opponent.InitialPieceCount | src/lib/chess-engine.ts:49-85 | each side starts with 16 pieces |
| Play.ReplayPrefix | src/pages/Play.tsx:108-117 | replaying one more move applies that move's step to the replay so far |
| Play.ReplayStepPlayer | src/pages/Play.tsx:112-116 | a replayed move whose origin holds a piece passes the turn |
| Play.ReplayLastPlayer | src/pages/Play.tsx:108-117 | replaying a history whose last move applied flips the side to move once more |
| Play.ReplayParity | src/pages/Play.tsx:106-117 | when every replayed move applied, White is to move exactly after an even number of moves |
| Play.TurnParity | src/pages/Play.tsx:106-117 | in a consistent state White is to move exactly when an even number of moves has been played |
| Play.InitialConsistent | src/lib/chess-engine.ts:88-102 | the initial state is the replay of the empty history and has a consistent (empty) selection |
| Play.AfterMoveKeepsInv | src/lib/chess-engine.ts:383-416 | a move keeps the board and the side to move equal to the replay of the longer history |
| Play.AfterMoveKeepsSelection | src/lib/chess-engine.ts:414-415 | a move leaves a consistent selection, since it clears it |
| Play.Click | src/pages/Play.tsx:32-76 | a click never decides the game, never changes its status and never touches the clocks |
| Play.ClickOutcome | src/pages/Play.tsx:32-76 | a click that does not change the history leaves the board and the side to move alone. A click that does change it plays exactly one move, from the selected piece of the side to move to one of its generated destinations |
| Play.ClickOnOfferedSquareMoves | src/pages/Play.tsx:49-53 | clicking an offered destination always plays the move and passes the turn: the move is never refused |
| Play.ClickSelection | src/pages/Play.tsx:32-76 | once the game is decided a click does nothing. Otherwise a click on a piece of the side to move that is not an offered destination selects it with its generated moves. With no selection any other square is ignored. With a selection any other square clears it |
| Play.ClickKeepsSelection | src/pages/Play.tsx:38-75 | after any click, a selected square holds a piece of the side to move and the offered squares are its generated moves. With no selection none are offered |
| Play.ClickKeepsInv | src/pages/Play.tsx:32-76 | after any click the board and the side to move still replay from the history |
| Play.Resign | src/pages/Play.tsx:85-95 | after resigning the game is decided exactly when it already was or it was being played. The computer setting is kept |
| Play.Timeout | src/pages/Play.tsx:134-144 | after a timeout the game is always decided. The computer setting is kept |
| Play.NewGame | src/pages/Play.tsx:79-82 | a new game has an empty history whose replay gives its board and side to move, a consistent (empty) selection and no reason for a win. The computer setting is kept |
| Play.EndingsDecideForOpponent | src/pages/Play.tsx:85-144 | resigning is ignored once the game is decided or not being played. A timeout is ignored only once the game is decided. Otherwise the opponent of the side to move wins, never the side to move itself, and the status becomes checkmate with the matching reason. Nothing else in the game changes |
| Play.SessionEndsKeepInv | src/pages/Play.tsx:79-144 | resigning, timing out and starting a new game keep the replay invariant and a consistent selection |
| Play.PlayOnArray | src/pages/Play.tsx:112-114 | one replay step on the array moves the piece, marked as moved, and empties the origin |
| Play.UndoSession | src/pages/Play.tsx:98-131 | with no history a take-back changes nothing. Otherwise it drops the last move and forgets the winner and the reason for the win. The computer setting is kept |
| Play.UndoMove | src/pages/Play.tsx:98-131 | the replay loop on a fresh starting board produces exactly the specified state. It is unchanged for an empty history, and the reason for a win is cleared |
| Play.UndoneKeepsInv | src/pages/Play.tsx:98-128 | taking a move back drops exactly the last move and keeps the replay invariant. It clears the selection, resets the status to playing and the winner to none, and keeps the clocks |
| Play.MoveThenUndo | src/pages/Play.tsx:98-128 | playing a move and taking it back restores the board cell by cell, the side to move and the history |
| Play.UndoTimesMoves | src/pages/Play.tsx:99-102 | taking back n moves drops exactly the last n moves |
| Play.UndoTimesInv | src/pages/Play.tsx:98-128 | repeated take-backs keep the replay invariant |
| Play.UndoEverything | src/pages/Play.tsx:98-128 | taking back every move returns to the starting position with White to move |
| Play.HandleAiMove | src/pages/Play.tsx:147-161 | the computer moves only when it is switched on, the game is undecided and Black is to move. The game changes exactly when it may move and Black has a piece that can move. Any change is a move of a Black piece to one of its generated destinations, played through the same move function as a click |
| MoveHistory.PairMoves | src/components/MoveHistory.tsx:11-18 | the loop in steps of two builds exactly the list of rows |
| MoveHistory.ShowHistory | src/components/MoveHistory.tsx:11-27 | the placeholder is shown exactly for an empty history. Otherwise the non-empty list of rows is shown |
| MoveHistory.Pairs | src/components/MoveHistory.tsx:11-18 | there are n/2 rows for n moves, rounded up: enough for all the moves at two per row, and none exactly for an empty history |
| MoveHistory.PairsNumbering | src/components/MoveHistory.tsx:14-16 | rows are numbered 1, 2, … in order. A row without Black's move is the last one, and only when the number of moves is odd, in which case the last row has none |
| MoveHistory.FlattenPrefix | src/components/MoveHistory.tsx:12-18 | the first k rows hold the first 2k moves, or all of them when there are fewer |
| MoveHistory.FlattenPairs | src/components/MoveHistory.tsx:12-18 | reading the rows top to bottom, White's move before Black's, gives back the history in order |
| MoveHistory.ThreeMoves | src/components/MoveHistory.tsx:12-18 | three moves give two rows, the second with White's move only |
| ChessTimer.DigitChar | src/components/ChessTimer.tsx:43 | a digit is written as a character from 0 to 9 |
| ChessTimer.NatToString | src/components/ChessTimer.tsx:43 | a number's decimal text is non-empty, made of digits, has no leading zero, and is one character long exactly below 10 |
| ChessTimer.NatToStringValue | src/components/ChessTimer.tsx:43 | reading a number's decimal text gives the number back |
| ChessTimer.ValueLeadingZero | src/components/ChessTimer.tsx:43 | a padding zero does not change the value read |
| ChessTimer.PadStart2 | src/components/ChessTimer.tsx:43 | padding makes a text at least two characters long and keeps it made of digits |
| ChessTimer.PadValue | src/components/ChessTimer.tsx:43 | padding a number's text keeps its value |
| ChessTimer.FormatTimeFields | src/components/ChessTimer.tsx:40-44 | the face is a minutes field of at least two digits, a colon, and a seconds field of exactly two digits. The fields hold the whole minutes and the remaining seconds, which are under 60 |
| ChessTimer.ParseFields | src/components/ChessTimer.tsx:41-43 | a face whose fields hold the minutes and seconds of a time reads as that time |
| ChessTimer.FormatTimeRoundTrip | src/components/ChessTimer.tsx:40-44 | reading the face as minutes times 60 plus seconds gives back the time shown |
| ChessTimer.FormatTimeInjective | src/components/ChessTimer.tsx:40-44 | different times show different faces |
| ChessTimer.TenMinutesFace | src/components/ChessTimer.tsx:40-44 | 600 seconds show as `10:00` |
| ChessTimer.UnderAMinuteFace | src/components/ChessTimer.tsx:40-44 | 59 seconds show as `00:59` |
| ChessTimer.LowTimeFace | src/components/ChessTimer.tsx:40-46 | the low-time flag is set exactly when the face starts with `00:` |
| ChessTimer.Tick | src/components/ChessTimer.tsx:23-30 | a tick takes one second off and never goes below zero. The timeout is reported exactly when the previous time was at most one second, and then the clock shows zero |
| ChessTimer.Second | src/components/ChessTimer.tsx:21-30 | a second changes the clock exactly while it is running and has time left. The remaining time never goes up and never below zero, and the timeout is reported exactly on the tick that takes the last second |
| ChessTimer.RunDown | src/components/ChessTimer.tsx:21-30 | a running clock after n seconds shows max(r - n, 0) and keeps running. It reports exactly one timeout, and only when it reached zero within those n seconds |
| ChessTimer.StoppedClock | src/components/ChessTimer.tsx:21 | a stopped clock does not change |
| ChessTimer.PropChange | src/components/ChessTimer.tsx:14-16 | the remaining time is reset to the given time only when that time differs from the previous one. Given the same time again, the clock is unchanged |
| ChessTimer.SpentClockStaysSpent | src/components/ChessTimer.tsx:14-21 | a clock that started at 600 seconds and ran out, then is stopped and given the same 600 seconds again, stays at zero and never reports again, even while running |
| ChessTimer.Restart | src/components/ChessTimer.tsx:14-16 | a restarted clock shows the time it is given, whatever it showed before. It differs from the clock as written exactly when it is given the time it already had while showing something else |
| ChessTimer.RestartRunsDown | src/components/ChessTimer.tsx:14-30 | after a restart with ten minutes, a running clock reaches zero after exactly 600 seconds and reports one timeout then |

## Left out

- The React rendering, JSX, state hooks and effect plumbing in all four files. Only the state transitions and computations are modelled.
- The `setInterval`/`clearInterval` scheduling of the clock and the 500 ms delay before the computer moves. Time is modelled as a count of one-second steps, and the computer's move as a single transition.
- `Math.random`: the shuffle by a random comparator and the random pick of a destination are free choices (any reordering, any index). Their distribution is not modelled.
- The sound effects; `src/utils/soundManager.ts` is not part of this model.
- Check, checkmate and stalemate detection, moves that leave the king in check, castling, en passant and promotion. The program does not implement them. The status and check flags change only through resigning, timing out, undo and a new game. `promotion` is never set.
- The program indexes the board with untyped numbers. Here squares have coordinates in 0..7 by type, so out-of-range indexing is not modelled and every generated destination is on the board.
- The handlers read the rendered state while the updates apply to the pending state. The model assumes the two are the same, i.e. that updates are processed one at a time.
- JavaScript object sharing between board copies and move records is not modelled. Boards and moves are values, and the in-place parts work on `array2` copies, as the program's copies do.
- A piece's `hasMoved` is undefined in the starting position and is modelled as `false`.
- The unused `board` argument and the unused origin rank of `generateMoveNotation` are left out.
- The move list's table markup, and its `black?.notation || ""` fallback for a row without Black's move, are left out. A notation text is never empty.
- `formatTime` is modelled on non-negative seconds. `RunDown` and `Tick` show that the remaining time never goes negative, so the negative case never reaches it.
- The clock's colour and pulse classes, and the `color` prop, are left out.
- Opponent.GenerateAiMove: states which moves can be chosen, not how likely each is, because the choice is random.
- Play.HandleAiMove: states that the played move is one of Black's generated moves, not which one, for the same reason.

## Findings

| source | as written | input that shows it | evidently intended | confidence | as-written member | corrected member |
|---|---|---|---|---|---|---|
| src/components/ChessTimer.tsx:14-16 | the remaining time is reset only when the `time` value changes. New Game passes each clock the same 600 seconds it had before (src/pages/Play.tsx:79-82), so nothing is reset | a game lost on time, then New Game: the losing clock has 0 left and is given 600 again. It stays at `00:00`, never ticks (line 21) and never reports a timeout in the new game | a new game restarts both clocks at ten minutes | medium, not executed (relies on effects re-running only when a dependency changes value) | ChessTimer.SpentClockStaysSpent (on ChessTimer.PropChange) | ChessTimer.Restart, with ChessTimer.RestartRunsDown |
