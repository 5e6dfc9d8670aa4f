/**
 * The game state record and move application: the engine copies the board,
 * moves the piece (which then counts as moved), records the move with its
 * notation and hands the turn to the other side.
 */
module GameEngine {
  import opened BoardModel
  import opened Notation

  /** A played move; `promotion` is never set, since promotion is not implemented. */
  datatype Move = Move(
    from: Square, to: Square, piece: Piece, captured: Option<Piece>,
    promotion: Option<Kind>, notation: string)

  datatype Status = Playing | Check | Checkmate | Stalemate | Draw

  /** The whole state of a game; the clocks are in seconds. */
  datatype GameState = GameState(
    board: Board,
    currentPlayer: Color,
    moves: seq<Move>,
    status: Status,
    whiteTime: int,
    blackTime: int,
    selectedSquare: Option<Square>,
    legalMoves: seq<Square>,
    whiteInCheck: bool,
    blackInCheck: bool,
    winner: Option<Color>)

  /** Ten minutes on each clock. */
  const StartingTime := 600

  /**
   * initialGameState, as a value: the starting position, White to move with
   * an empty history, 600 seconds on each clock, nothing selected, no winner.
   */
  function InitialGameState(): (s: GameState)
    ensures s.currentPlayer == White && s.moves == []
    ensures s.whiteTime == 600 && s.blackTime == 600
    ensures s.status == Playing && s.winner.None?
    ensures s.selectedSquare.None? && s.legalMoves == []
    ensures forall r: Coord, c: Coord :: s.board[r][c] == InitialCell(r, c)
  {
    GameState(Initial(), White, [], Playing, StartingTime, StartingTime, None, [], false, false, None)
  }

  /** initialGameState as the engine runs it, building the board with initialBoard. */
  method NewInitialGameState() returns (s: GameState)
    ensures s == InitialGameState()
  {
    var a := InitialBoard();
    s := GameState(Grid(a), White, [], Playing, StartingTime, StartingTime, None, [], false, false, None);
  }

  /** The piece after it has moved. */
  function Moved(p: Piece): Piece {
    p.(hasMoved := true)
  }

  /**
   * The board after the piece on `from` goes to `to`: the destination gets
   * the moved piece, then the origin is emptied, so a move onto its own
   * square removes the piece.
   */
  function MoveOnBoard(b: Board, from: Square, to: Square): (b': Board)
    requires At(b, from).Some?
    ensures At(b', from).None?
    ensures from != to ==> At(b', to) == Some(Moved(At(b, from).value))
  {
    Put(Put(b, to, Some(Moved(At(b, from).value))), from, None)
  }

  /** A move changes no cell other than its origin and its destination. */
  lemma MoveOnBoardCells(b: Board, from: Square, to: Square)
    requires At(b, from).Some?
    ensures forall r: Coord, c: Coord :: Square(r, c) != from && Square(r, c) != to ==>
      MoveOnBoard(b, from, to)[r][c] == b[r][c]
  {
    var b1 := Put(b, to, Some(Moved(At(b, from).value)));
    PutCells(b, to, Some(Moved(At(b, from).value)));
    PutCells(b1, from, None);
  }

  /**
   * makeMove, as a value: the state after the current player moves from
   * `from` to `to`. The state changes exactly when the origin holds a piece
   * of the side to move.
   */
  function AfterMove(s: GameState, from: Square, to: Square): (s': GameState)
    ensures s' == s <==> !OwnedBy(s.board, from, s.currentPlayer)
  {
    if !OwnedBy(s.board, from, s.currentPlayer) then s
    else
      var piece := At(s.board, from).value;
      var captured := At(s.board, to);
      s.(board := MoveOnBoard(s.board, from, to),
         currentPlayer := Opposite(s.currentPlayer),
         moves := s.moves + [Move(from, to, piece, captured, None, MoveNotation(from, to, piece, captured))],
         selectedSquare := None,
         legalMoves := [])
  }

  /**
   * makeMove: copies the board, returns the input unchanged unless the
   * origin holds a piece of the side to move, and otherwise writes the
   * two cells and builds the new state.
   */
  method MakeMove(s: GameState, from: Square, to: Square) returns (s': GameState)
    ensures s' == AfterMove(s, from, to)
  {
    var newBoard := CloneBoard(s.board);
    var piece := newBoard[from.row, from.col];
    if piece.None? || piece.value.color != s.currentPlayer {
      return s;
    }
    var captured := newBoard[to.row, to.col];
    newBoard[to.row, to.col] := Some(Moved(piece.value));
    newBoard[from.row, from.col] := None;
    var notation := MoveNotation(from, to, piece.value, captured);
    var newMove := Move(from, to, piece.value, captured, None, notation);
    MoveOnBoardCells(s.board, from, to);
    BoardExtensionality(Grid(newBoard), MoveOnBoard(s.board, from, to));
    s' := s.(board := Grid(newBoard),
             currentPlayer := if s.currentPlayer == White then Black else White,
             moves := s.moves + [newMove],
             selectedSquare := None,
             legalMoves := []);
  }

  /**
   * A move of the side to move appends exactly one record, naming the piece
   * as it stood and the previous occupant of the destination, with the
   * move's notation and no promotion, and passes the turn; the selection is
   * cleared and the clocks, status, check flags and winner are kept.
   */
  lemma AfterMoveEffect(s: GameState, from: Square, to: Square)
    requires OwnedBy(s.board, from, s.currentPlayer)
    ensures |AfterMove(s, from, to).moves| == |s.moves| + 1
    ensures AfterMove(s, from, to).moves[..|s.moves|] == s.moves
    ensures AfterMove(s, from, to).moves[|s.moves|].from == from
    ensures AfterMove(s, from, to).moves[|s.moves|].to == to
    ensures AfterMove(s, from, to).moves[|s.moves|].piece == At(s.board, from).value
    ensures AfterMove(s, from, to).moves[|s.moves|].captured == At(s.board, to)
    ensures AfterMove(s, from, to).moves[|s.moves|].promotion.None?
    ensures AfterMove(s, from, to).moves[|s.moves|].notation ==
      MoveNotation(from, to, At(s.board, from).value, At(s.board, to))
    ensures AfterMove(s, from, to).currentPlayer != s.currentPlayer
    ensures AfterMove(s, from, to).board == MoveOnBoard(s.board, from, to)
    ensures AfterMove(s, from, to).selectedSquare.None? && AfterMove(s, from, to).legalMoves == []
    ensures AfterMove(s, from, to).whiteTime == s.whiteTime && AfterMove(s, from, to).blackTime == s.blackTime
    ensures AfterMove(s, from, to).status == s.status && AfterMove(s, from, to).winner == s.winner
    ensures AfterMove(s, from, to).whiteInCheck == s.whiteInCheck
    ensures AfterMove(s, from, to).blackInCheck == s.blackInCheck
  {
    assert AfterMove(s, from, to).moves == s.moves + [AfterMove(s, from, to).moves[|s.moves|]];
  }
}
