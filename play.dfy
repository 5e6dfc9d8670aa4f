/**
 * The game screen's transitions, taken out of their event handlers as
 * functions from state to state: selecting and moving by clicking squares,
 * resigning, running out of time, starting over, taking a move back by
 * replaying the shortened history, and the computer's turn.
 */
module Play {
  import opened BoardModel
  import opened MoveGen
  import opened GameEngine
  import opened Opponent

  datatype WinReason = ByCheckmate | ByResignation | ByTimeout

  /** What the screen keeps besides the game: whether the computer plays Black, and why the game was won. */
  datatype Session = Session(game: GameState, aiActive: bool, winReason: Option<WinReason>)

  // ---------------------------------------------------------------------
  // Replaying a history from the starting position.
  // ---------------------------------------------------------------------

  /** A board and the side to move, as rebuilt by a replay. */
  datatype Replayed = Replayed(board: Board, player: Color)

  /**
   * One replayed move: when its origin holds a piece, the piece moves and
   * the turn passes; otherwise nothing happens.
   */
  function ReplayStep(r: Replayed, m: Move): Replayed {
    if At(r.board, m.from).Some? then Replayed(MoveOnBoard(r.board, m.from, m.to), Opposite(r.player))
    else r
  }

  /** The board and side to move after replaying `moves` over the starting position, White first. */
  function Replay(moves: seq<Move>): Replayed {
    if moves == [] then Replayed(Initial(), White)
    else ReplayStep(Replay(moves[..|moves| - 1]), moves[|moves| - 1])
  }

  /** Every move of the history finds a piece on its origin when replayed. */
  predicate AllApplied(moves: seq<Move>) {
    moves == [] ||
      (AllApplied(moves[..|moves| - 1]) && At(Replay(moves[..|moves| - 1]).board, moves[|moves| - 1].from).Some?)
  }

  /** The board and the side to move are those the history replays to. */
  predicate Inv(s: GameState) {
    Replay(s.moves) == Replayed(s.board, s.currentPlayer) && AllApplied(s.moves)
  }

  /**
   * A selected square holds a piece of the side to move and the offered
   * destinations are its generated moves; with no selection none are offered.
   */
  predicate SelectionOk(s: GameState) {
    match s.selectedSquare
    case Some(sel) =>
      OwnedBy(s.board, sel, s.currentPlayer) && s.legalMoves == LegalMoves(s.board, sel.row, sel.col)
    case None => s.legalMoves == []
  }

  lemma ReplayPrefix(moves: seq<Move>, k: nat)
    requires k < |moves|
    ensures Replay(moves[..k + 1]) == ReplayStep(Replay(moves[..k]), moves[k])
  {
    assert moves[..k + 1][..k] == moves[..k];
  }

  /** A replayed move whose origin holds a piece passes the turn. */
  lemma ReplayStepPlayer(r: Replayed, m: Move)
    requires At(r.board, m.from).Some?
    ensures ReplayStep(r, m).player == Opposite(r.player)
  {
  }

  /** The side to move after a history whose last move applied is the opposite of the side before it. */
  lemma ReplayLastPlayer(moves: seq<Move>)
    requires AllApplied(moves) && moves != []
    ensures Replay(moves).player == Opposite(Replay(moves[..|moves| - 1]).player)
  {
    var n := |moves| - 1;
    assert At(Replay(moves[..n]).board, moves[n].from).Some?;
    ReplayStepPlayer(Replay(moves[..n]), moves[n]);
  }

  /** A replay in which every move applied leaves White to move exactly after an even number of moves. */
  lemma {:induction false} ReplayParity(moves: seq<Move>)
    requires AllApplied(moves)
    ensures Replay(moves).player == if |moves| % 2 == 0 then White else Black
  {
    if moves != [] {
      ReplayParity(moves[..|moves| - 1]);
      ReplayLastPlayer(moves);
    }
  }

  /** In a consistent state White is to move exactly when an even number of moves has been played. */
  lemma TurnParity(s: GameState)
    requires Inv(s)
    ensures s.currentPlayer == White <==> |s.moves| % 2 == 0
  {
    ReplayParity(s.moves);
  }

  lemma InitialConsistent()
    ensures Inv(InitialGameState()) && SelectionOk(InitialGameState())
  {
  }

  /** A move keeps the board and the side to move equal to the replay of the longer history. */
  lemma AfterMoveKeepsInv(s: GameState, from: Square, to: Square)
    requires Inv(s)
    ensures Inv(AfterMove(s, from, to))
  {
    var s' := AfterMove(s, from, to);
    if OwnedBy(s.board, from, s.currentPlayer) {
      var n := |s.moves|;
      assert s'.moves[..n] == s.moves;
      ReplayPrefix(s'.moves, n);
      assert s'.moves[..n + 1] == s'.moves;
    }
  }

  /** A move clears the selection, so the selection is consistent afterwards. */
  lemma AfterMoveKeepsSelection(s: GameState, from: Square, to: Square)
    requires SelectionOk(s)
    ensures SelectionOk(AfterMove(s, from, to))
  {
  }

  // ---------------------------------------------------------------------
  // Clicking a square.
  // ---------------------------------------------------------------------

  /**
   * handleSquareClick: nothing once there is a winner; with no selection, a
   * piece of the side to move is selected together with its moves; with a
   * selection, an offered destination is played, another own piece is
   * selected instead, and any other square clears the selection. A click
   * never decides the game, changes its status or touches the clocks.
   */
  function Click(s: GameState, row: Coord, col: Coord): (s': GameState)
    ensures s'.winner == s.winner && s'.status == s.status
    ensures s'.whiteTime == s.whiteTime && s'.blackTime == s.blackTime
  {
    var sq := Square(row, col);
    if s.winner.Some? then s
    else if s.selectedSquare.None? && OwnedBy(s.board, sq, s.currentPlayer) then
      s.(selectedSquare := Some(sq), legalMoves := LegalMoves(s.board, row, col))
    else if s.selectedSquare.Some? && sq in s.legalMoves then
      AfterMove(s, s.selectedSquare.value, sq)
    else if s.selectedSquare.Some? then
      if OwnedBy(s.board, sq, s.currentPlayer) then
        s.(selectedSquare := Some(sq), legalMoves := LegalMoves(s.board, row, col))
      else
        s.(selectedSquare := None, legalMoves := [])
    else s
  }

  /**
   * A click either plays a move or leaves the board, the history and the
   * side to move alone; a played move goes from the selected piece of the
   * side to move to one of its generated destinations, and the history
   * grows by exactly that move.
   */
  lemma ClickOutcome(s: GameState, row: Coord, col: Coord)
    requires SelectionOk(s)
    ensures Click(s, row, col).moves == s.moves ==>
      Click(s, row, col).board == s.board && Click(s, row, col).currentPlayer == s.currentPlayer
    ensures Click(s, row, col).moves != s.moves ==>
      && s.selectedSquare.Some?
      && OwnedBy(s.board, s.selectedSquare.value, s.currentPlayer)
      && Square(row, col) in LegalMoves(s.board, s.selectedSquare.value.row, s.selectedSquare.value.col)
      && Click(s, row, col) == AfterMove(s, s.selectedSquare.value, Square(row, col))
      && |Click(s, row, col).moves| == |s.moves| + 1
  {
    var sq := Square(row, col);
    if s.winner.None? && s.selectedSquare.Some? && sq in s.legalMoves {
      AfterMoveEffect(s, s.selectedSquare.value, sq);
    }
  }

  /**
   * Clicking an offered destination always plays it: the move is never
   * refused for want of a piece of the side to move on the selected square.
   */
  lemma ClickOnOfferedSquareMoves(s: GameState, row: Coord, col: Coord)
    requires SelectionOk(s) && s.winner.None? && s.selectedSquare.Some?
    requires Square(row, col) in s.legalMoves
    ensures |Click(s, row, col).moves| == |s.moves| + 1
    ensures Click(s, row, col).currentPlayer == Opposite(s.currentPlayer)
  {
    AfterMoveEffect(s, s.selectedSquare.value, Square(row, col));
  }

  /**
   * Clicks that do not play a move only change the selection: nothing once
   * the game is decided; a piece of the side to move becomes the selection
   * with its generated moves; with nothing selected any other square is
   * ignored, and with a selection it clears the selection.
   */
  lemma ClickSelection(s: GameState, row: Coord, col: Coord)
    ensures s.winner.Some? ==> Click(s, row, col) == s
    ensures (s.winner.None? && OwnedBy(s.board, Square(row, col), s.currentPlayer)
             && (s.selectedSquare.None? || Square(row, col) !in s.legalMoves)) ==>
      Click(s, row, col) == s.(selectedSquare := Some(Square(row, col)), legalMoves := LegalMoves(s.board, row, col))
    ensures s.winner.None? && s.selectedSquare.None? && !OwnedBy(s.board, Square(row, col), s.currentPlayer) ==>
      Click(s, row, col) == s
    ensures (s.winner.None? && s.selectedSquare.Some? && Square(row, col) !in s.legalMoves
             && !OwnedBy(s.board, Square(row, col), s.currentPlayer)) ==>
      Click(s, row, col) == s.(selectedSquare := None, legalMoves := [])
  {
  }

  /** After a click the selection is still consistent. */
  lemma ClickKeepsSelection(s: GameState, row: Coord, col: Coord)
    requires SelectionOk(s)
    ensures SelectionOk(Click(s, row, col))
  {
  }

  /** After a click the board and side to move still replay from the history. */
  lemma ClickKeepsInv(s: GameState, row: Coord, col: Coord)
    requires Inv(s)
    ensures Inv(Click(s, row, col))
  {
    var sq := Square(row, col);
    if s.winner.None? && !(s.selectedSquare.None? && OwnedBy(s.board, sq, s.currentPlayer))
      && s.selectedSquare.Some? && sq in s.legalMoves
    {
      AfterMoveKeepsInv(s, s.selectedSquare.value, sq);
    }
  }

  // ---------------------------------------------------------------------
  // Resigning, running out of time, starting over.
  // ---------------------------------------------------------------------

  /**
   * handleResign: only while the game is being played and undecided; the
   * opponent of the side to move wins. Afterwards the game is decided exactly
   * when it already was or it was being played.
   */
  function Resign(ss: Session): (ss': Session)
    ensures ss'.game.winner.Some? <==> ss.game.winner.Some? || ss.game.status == Playing
    ensures ss'.aiActive == ss.aiActive
  {
    var s := ss.game;
    if s.winner.Some? || s.status != Playing then ss
    else ss.(game := s.(winner := Some(Opposite(s.currentPlayer)), status := Checkmate),
             winReason := Some(ByResignation))
  }

  /**
   * handleTimeout: unless the game is decided, the opponent of the side to
   * move wins, whatever the status; so the game is always decided afterwards.
   */
  function Timeout(ss: Session): (ss': Session)
    ensures ss'.game.winner.Some?
    ensures ss'.aiActive == ss.aiActive
  {
    var s := ss.game;
    if s.winner.Some? then ss
    else ss.(game := s.(winner := Some(Opposite(s.currentPlayer)), status := Checkmate),
             winReason := Some(ByTimeout))
  }

  /**
   * handleNewGame: a fresh game, consistent with its empty history and with
   * nothing selected; no reason for a win; the computer setting is kept.
   */
  function NewGame(ss: Session): (ss': Session)
    ensures Inv(ss'.game) && SelectionOk(ss'.game) && ss'.game.moves == []
    ensures ss'.winReason.None? && ss'.aiActive == ss.aiActive
  {
    Session(InitialGameState(), ss.aiActive, None)
  }

  /**
   * Resigning and timing out never make the side to move the winner, touch
   * only the winner, the status and the reason, and change nothing once the
   * game is decided; resigning also needs the status to be `Playing`.
   */
  lemma EndingsDecideForOpponent(ss: Session)
    ensures ss.game.winner.Some? || ss.game.status != Playing ==> Resign(ss) == ss
    ensures ss.game.winner.Some? ==> Timeout(ss) == ss
    ensures ss.game.winner.None? ==>
      && Timeout(ss).game.winner == Some(Opposite(ss.game.currentPlayer))
      && Timeout(ss).game.winner != Some(ss.game.currentPlayer)
      && Timeout(ss).game.status == Checkmate
      && Timeout(ss).winReason == Some(ByTimeout)
      && Timeout(ss).game == ss.game.(winner := Timeout(ss).game.winner, status := Checkmate)
    ensures ss.game.winner.None? && ss.game.status == Playing ==>
      && Resign(ss).game.winner == Some(Opposite(ss.game.currentPlayer))
      && Resign(ss).game.winner != Some(ss.game.currentPlayer)
      && Resign(ss).game.status == Checkmate
      && Resign(ss).winReason == Some(ByResignation)
      && Resign(ss).game == ss.game.(winner := Resign(ss).game.winner, status := Checkmate)
  {
  }

  /** Resigning, timing out and starting over keep the replay invariant and a consistent selection. */
  lemma SessionEndsKeepInv(ss: Session)
    requires Inv(ss.game) && SelectionOk(ss.game)
    ensures Inv(Resign(ss).game) && SelectionOk(Resign(ss).game)
    ensures Inv(Timeout(ss).game) && SelectionOk(Timeout(ss).game)
    ensures Inv(NewGame(ss).game) && SelectionOk(NewGame(ss).game)
  {
  }

  // ---------------------------------------------------------------------
  // Taking a move back.
  // ---------------------------------------------------------------------

  /**
   * handleUndoMove, as a value: the last move is dropped and the board and
   * the side to move are rebuilt by replaying the rest from the starting
   * position; the selection is cleared, the status and winner reset, the
   * clocks kept.
   */
  function Undone(s: GameState): GameState {
    if s.moves == [] then s
    else
      var newMoves := s.moves[..|s.moves| - 1];
      var r := Replay(newMoves);
      s.(board := r.board, currentPlayer := r.player, moves := newMoves,
         selectedSquare := None, legalMoves := [], status := Playing, winner := None)
  }

  /**
   * The session after taking a move back: with a history, the last move is
   * dropped and the winner and the reason for the win are forgotten; without
   * one nothing changes. The computer setting is kept.
   */
  function UndoSession(ss: Session): (ss': Session)
    ensures ss.game.moves == [] ==> ss' == ss
    ensures ss.game.moves != [] ==>
      ss'.game.moves == ss.game.moves[..|ss.game.moves| - 1] && ss'.game.winner.None? && ss'.winReason.None?
    ensures ss'.aiActive == ss.aiActive
  {
    if ss.game.moves == [] then ss else ss.(game := Undone(ss.game), winReason := None)
  }

  /** The replay loop's step on the mutable board: the piece moves and the origin is emptied. */
  method PlayOnArray(a: array2<Cell>, from: Square, to: Square)
    requires a.Length0 == 8 && a.Length1 == 8 && a[from.row, from.col].Some?
    modifies a
    ensures At(old(Grid(a)), from).Some? && Grid(a) == MoveOnBoard(old(Grid(a)), from, to)
  {
    ghost var before := Grid(a);
    var piece := a[from.row, from.col].value;
    a[to.row, to.col] := Some(Moved(piece));
    a[from.row, from.col] := None;
    MoveOnBoardCells(before, from, to);
    BoardExtensionality(Grid(a), MoveOnBoard(before, from, to));
  }

  /**
   * handleUndoMove: drops the last move, then rebuilds the board from a new
   * starting position by replaying the remaining moves in order, passing
   * the turn once for each move that finds its piece.
   */
  method UndoMove(ss: Session) returns (ss': Session)
    ensures ss' == UndoSession(ss)
  {
    var moves := ss.game.moves;
    if |moves| == 0 {
      return ss;
    }
    var newMoves := moves[..|moves| - 1];
    var newBoard := InitialBoard();
    var newCurrentPlayer := White;
    for k := 0 to |newMoves|
      invariant Replayed(Grid(newBoard), newCurrentPlayer) == Replay(newMoves[..k])
    {
      var move := newMoves[k];
      ReplayPrefix(newMoves, k);
      var piece := newBoard[move.from.row, move.from.col];
      if piece.Some? {
        PlayOnArray(newBoard, move.from, move.to);
        newCurrentPlayer := if newCurrentPlayer == White then Black else White;
      }
    }
    assert newMoves[..|newMoves|] == newMoves;
    ss' := ss.(game := ss.game.(board := Grid(newBoard), currentPlayer := newCurrentPlayer, moves := newMoves,
                                selectedSquare := None, legalMoves := [], status := Playing, winner := None),
               winReason := None);
  }

  /** Taking a move back shortens the history by its last move and keeps the replay invariant. */
  lemma UndoneKeepsInv(s: GameState)
    requires Inv(s)
    ensures Inv(Undone(s))
    ensures s.moves != [] ==> SelectionOk(Undone(s)) && Undone(s).moves == s.moves[..|s.moves| - 1]
    ensures s.moves != [] ==> Undone(s).status == Playing && Undone(s).winner.None?
    ensures Undone(s).whiteTime == s.whiteTime && Undone(s).blackTime == s.blackTime
  {
  }

  /**
   * Playing a move and taking it back restores the board cell by cell, the
   * side to move and the history.
   */
  lemma MoveThenUndo(s: GameState, from: Square, to: Square)
    requires Inv(s) && OwnedBy(s.board, from, s.currentPlayer)
    ensures Undone(AfterMove(s, from, to)).board == s.board
    ensures Undone(AfterMove(s, from, to)).currentPlayer == s.currentPlayer
    ensures Undone(AfterMove(s, from, to)).moves == s.moves
  {
    var s' := AfterMove(s, from, to);
    assert s'.moves[..|s'.moves| - 1] == s.moves;
  }

  /** The state after taking back `n` moves. */
  function UndoTimes(s: GameState, n: nat): GameState {
    if n == 0 then s else Undone(UndoTimes(s, n - 1))
  }

  /** Taking back `n` moves drops the last `n` moves of the history. */
  lemma {:induction false} UndoTimesMoves(s: GameState, n: nat)
    requires n <= |s.moves|
    ensures UndoTimes(s, n).moves == s.moves[..|s.moves| - n]
  {
    if n > 0 {
      UndoTimesMoves(s, n - 1);
      var m := |s.moves| - (n - 1);
      assert UndoTimes(s, n - 1).moves[..m - 1] == s.moves[..m - 1];
    }
  }

  /** Taking back moves one at a time keeps the replay invariant. */
  lemma {:induction false} UndoTimesInv(s: GameState, n: nat)
    requires Inv(s)
    ensures Inv(UndoTimes(s, n))
  {
    if n > 0 {
      UndoTimesInv(s, n - 1);
      UndoneKeepsInv(UndoTimes(s, n - 1));
    }
  }

  /** Taking back every move returns to the starting position with White to move. */
  lemma UndoEverything(s: GameState)
    requires Inv(s)
    ensures UndoTimes(s, |s.moves|).board == Initial()
    ensures UndoTimes(s, |s.moves|).currentPlayer == White
    ensures UndoTimes(s, |s.moves|).moves == []
  {
    UndoTimesMoves(s, |s.moves|);
    UndoTimesInv(s, |s.moves|);
  }

  // ---------------------------------------------------------------------
  // The computer's turn.
  // ---------------------------------------------------------------------

  /** The computer moves only when it is switched on, the game is undecided and Black is to move. */
  predicate AiMayMove(ss: Session) {
    ss.aiActive && ss.game.winner.None? && ss.game.currentPlayer == Black
  }

  /**
   * handleAIMove: when the computer may move and has a move, the generated
   * move is played through makeMove; otherwise nothing changes.
   */
  method HandleAiMove(ss: Session) returns (ss': Session)
    ensures !AiMayMove(ss) ==> ss' == ss
    ensures ss'.aiActive == ss.aiActive && ss'.winReason == ss.winReason
    ensures ss'.game == ss.game <==> !AiMayMove(ss) || Stuck(ss.game.board, Black)
    ensures ss'.game != ss.game ==> exists from: Square, to: Square ::
      && OwnedBy(ss.game.board, from, Black)
      && to in LegalMoves(ss.game.board, from.row, from.col)
      && ss'.game == AfterMove(ss.game, from, to)
  {
    if !AiMayMove(ss) {
      return ss;
    }
    var aiMove := GenerateAiMove(ss.game);
    if aiMove.None? {
      return ss;
    }
    var from, to := aiMove.value.from, aiMove.value.to;
    var newGameState := MakeMove(ss.game, from, to);
    AfterMoveEffect(ss.game, from, to);
    ss' := ss.(game := newGameState);
  }
}
