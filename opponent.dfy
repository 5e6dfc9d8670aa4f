/**
 * The computer opponent: it collects the squares of its pieces, visits them
 * in a shuffled order and plays a randomly chosen destination of the first
 * piece that has any. The random shuffle and the random pick are modelled
 * as free choices: any permutation, any destination.
 */
module Opponent {
  import opened BoardModel
  import opened MoveGen
  import opened GameEngine

  datatype AiMove = AiMove(from: Square, to: Square)

  /** The squares of row `row`, among its first `col` columns, that hold a piece of `color`, left to right. */
  function RowSquares(b: Board, color: Color, row: Coord, col: nat): seq<Square>
    requires col <= 8
  {
    if col == 0 then []
    else RowSquares(b, color, row, col - 1) + (if OwnedBy(b, Square(row, col - 1), color) then [Square(row, col - 1)] else [])
  }

  /** The squares of the first `row` rows that hold a piece of `color`, in row-major order. */
  function OwnSquares(b: Board, color: Color, row: nat): seq<Square>
    requires row <= 8
  {
    if row == 0 then [] else OwnSquares(b, color, row - 1) + RowSquares(b, color, row - 1, 8)
  }

  lemma {:induction false} RowSquaresExact(b: Board, color: Color, row: Coord, col: nat)
    requires col <= 8
    ensures forall sq :: sq in RowSquares(b, color, row, col) <==> OwnedBy(b, sq, color) && sq.row == row && sq.col < col
  {
    if col > 0 {
      RowSquaresExact(b, color, row, col - 1);
    }
  }

  /** A square is listed exactly when it holds a piece of `color` and lies in the first `row` rows. */
  lemma {:induction false} OwnSquaresExact(b: Board, color: Color, row: nat)
    requires row <= 8
    ensures forall sq :: sq in OwnSquares(b, color, row) <==> OwnedBy(b, sq, color) && sq.row < row
  {
    if row > 0 {
      OwnSquaresExact(b, color, row - 1);
      RowSquaresExact(b, color, row - 1, 8);
    }
  }

  /** No piece of `color` has a destination. */
  ghost predicate Stuck(b: Board, color: Color) {
    forall sq :: OwnedBy(b, sq, color) ==> LegalMoves(b, sq.row, sq.col) == []
  }

  /**
   * The scan over the pieces of the side to move: finds all of them in
   * row-major order.
   */
  method CollectPieces(b: Board, color: Color) returns (pieces: seq<Square>)
    ensures pieces == OwnSquares(b, color, 8)
  {
    pieces := [];
    for row := 0 to 8
      invariant pieces == OwnSquares(b, color, row)
    {
      for col := 0 to 8
        invariant pieces == OwnSquares(b, color, row) + RowSquares(b, color, row, col)
      {
        var piece := b[row][col];
        if piece.Some? && piece.value.color == color {
          pieces := pieces + [Square(row, col)];
        }
      }
    }
  }

  /** Any reordering of the collected squares holds exactly the squares of the pieces of `color`. */
  lemma ReorderedPieces(b: Board, color: Color, shuffled: seq<Square>)
    requires multiset(shuffled) == multiset(OwnSquares(b, color, 8))
    ensures forall sq :: sq in shuffled <==> OwnedBy(b, sq, color)
  {
    OwnSquaresExact(b, color, 8);
    forall sq ensures sq in shuffled <==> sq in OwnSquares(b, color, 8) {
      assert sq in shuffled <==> sq in multiset(shuffled);
      assert sq in OwnSquares(b, color, 8) <==> sq in multiset(OwnSquares(b, color, 8));
    }
  }

  /** A scan that found no destination for any piece in the list shows that the side is stuck. */
  lemma ScanFoundNothing(b: Board, color: Color, shuffled: seq<Square>)
    requires forall sq :: sq in shuffled <==> OwnedBy(b, sq, color)
    requires forall j :: 0 <= j < |shuffled| ==> LegalMoves(b, shuffled[j].row, shuffled[j].col) == []
    ensures Stuck(b, color)
  {
    forall sq | OwnedBy(b, sq, color)
      ensures LegalMoves(b, sq.row, sq.col) == []
    {
      var j :| 0 <= j < |shuffled| && shuffled[j] == sq;
    }
  }

  /**
   * generateAiMove: `None` exactly when no piece of the side to move has a
   * destination; otherwise a move of one of its pieces to one of that
   * piece's destinations.
   */
  method GenerateAiMove(s: GameState) returns (m: Option<AiMove>)
    ensures m.None? <==> Stuck(s.board, s.currentPlayer)
    ensures m.Some? ==> OwnedBy(s.board, m.value.from, s.currentPlayer)
    ensures m.Some? ==> m.value.to in LegalMoves(s.board, m.value.from.row, m.value.from.col)
  {
    var b, color := s.board, s.currentPlayer;
    var pieces := CollectPieces(b, color);
    var shuffled: seq<Square> :| multiset(shuffled) == multiset(pieces);
    ReorderedPieces(b, color, shuffled);
    m := FirstMovable(b, shuffled);
    if m.None? {
      ScanFoundNothing(b, color, shuffled);
    }
  }

  /**
   * The loop of generateAiMove over the shuffled pieces: the first piece
   * with a destination moves to any one of its destinations; every piece
   * listed before it has none.
   */
  method FirstMovable(b: Board, shuffled: seq<Square>) returns (m: Option<AiMove>)
    ensures m.None? ==> forall j :: 0 <= j < |shuffled| ==> LegalMoves(b, shuffled[j].row, shuffled[j].col) == []
    ensures m.Some? ==>
      exists k :: 0 <= k < |shuffled| && shuffled[k] == m.value.from &&
        forall j :: 0 <= j < k ==> LegalMoves(b, shuffled[j].row, shuffled[j].col) == []
    ensures m.Some? ==> m.value.to in LegalMoves(b, m.value.from.row, m.value.from.col)
  {
    for k := 0 to |shuffled|
      invariant forall j :: 0 <= j < k ==> LegalMoves(b, shuffled[j].row, shuffled[j].col) == []
    {
      var sq := shuffled[k];
      var legalMoves := GetLegalMoves(b, sq.row, sq.col);
      if |legalMoves| > 0 {
        var i :| 0 <= i < |legalMoves|;
        return Some(AiMove(sq, legalMoves[i]));
      }
    }
    return None;
  }

  /** In the starting position a row holds eight pieces of a side when it is one of that side's two rows, none otherwise. */
  lemma {:induction false} InitialRowCount(color: Color, row: Coord, col: nat)
    requires col <= 8
    ensures |RowSquares(Initial(), color, row, col)| ==
      if (color == White && row <= 1) || (color == Black && row >= 6) then col else 0
  {
    if col > 0 {
      InitialRowCount(color, row, col - 1);
    }
  }

  /** The pieces of each side in the first `row` rows of the starting position. */
  lemma {:induction false} InitialCount(row: nat)
    requires row <= 8
    ensures |OwnSquares(Initial(), White, row)| == if row < 2 then 8 * row else 16
    ensures |OwnSquares(Initial(), Black, row)| == if row < 6 then 0 else 8 * (row - 6)
  {
    if row > 0 {
      InitialCount(row - 1);
      InitialRowCount(White, row - 1, 8);
      InitialRowCount(Black, row - 1, 8);
    }
  }

  /** Each side starts with sixteen pieces. */
  lemma InitialPieceCount()
    ensures |OwnSquares(Initial(), White, 8)| == 16
    ensures |OwnSquares(Initial(), Black, 8)| == 16
  {
    InitialCount(8);
  }
}
