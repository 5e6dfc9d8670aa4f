/**
 * The board model of the chess engine: pieces, squares, the 8x8 grid of
 * optional pieces, the bounds test and the standard starting position.
 */
module BoardModel {

  datatype Option<T> = None | Some(value: T)

  datatype Color = White | Black

  datatype Kind = Pawn | Knight | Bishop | Rook | Queen | King

  /** A piece; `hasMoved` is false for the pieces of the starting position. */
  datatype Piece = Piece(kind: Kind, color: Color, hasMoved: bool)

  type Cell = Option<Piece>

  /** A board coordinate: rows and columns are numbered 0..7. */
  type Coord = x: int | 0 <= x < 8

  /** A square of the board; row 0 / column 0 is White's back-left corner. */
  datatype Square = Square(row: Coord, col: Coord)

  predicate IsGrid(b: seq<seq<Cell>>) {
    |b| == 8 && forall r :: 0 <= r < 8 ==> |b[r]| == 8
  }

  /** An 8x8 grid of cells, indexed `b[row][col]`. */
  type Board = b: seq<seq<Cell>> | IsGrid(b) witness EmptyBoard()

  function EmptyBoard(): seq<seq<Cell>> {
    seq(8, _ => seq(8, _ => None))
  }

  function Opposite(c: Color): (o: Color)
    ensures o != c
  {
    if c == White then Black else White
  }

  /** isValidSquare: both coordinates lie in 0..7. */
  predicate InBounds(row: int, col: int) {
    0 <= row < 8 && 0 <= col < 8
  }

  /** A position passes the bounds check exactly when it names one of the board's squares. */
  lemma InBoundsSquare(row: int, col: int)
    ensures InBounds(row, col) <==> exists sq: Square :: sq.row == row && sq.col == col
  {
    if InBounds(row, col) {
      assert Square(row, col).row == row && Square(row, col).col == col;
    }
  }

  function At(b: Board, sq: Square): Cell {
    b[sq.row][sq.col]
  }

  predicate IsEmpty(b: Board, sq: Square) {
    At(b, sq).None?
  }

  /** The square holds a piece of colour `color`. */
  predicate OwnedBy(b: Board, sq: Square, color: Color) {
    At(b, sq).Some? && At(b, sq).value.color == color
  }

  /** The board with cell `sq` replaced by `x`. */
  function Put(b: Board, sq: Square, x: Cell): Board {
    b[sq.row := b[sq.row][sq.col := x]]
  }

  /** Writing a cell changes that cell and no other. */
  lemma PutCells(b: Board, sq: Square, x: Cell)
    ensures forall r, c :: 0 <= r < 8 && 0 <= c < 8 ==>
      Put(b, sq, x)[r][c] == if r == sq.row && c == sq.col then x else b[r][c]
  {
  }

  /** Two boards are equal exactly when they agree on every cell. */
  lemma {:induction false} BoardExtensionality(b: Board, b': Board)
    requires forall r, c :: 0 <= r < 8 && 0 <= c < 8 ==> b[r][c] == b'[r][c]
    ensures b == b'
  {
    forall r | 0 <= r < 8
      ensures b[r] == b'[r]
    {
      assert forall c :: 0 <= c < 8 ==> b[r][c] == b'[r][c];
    }
  }

  /** The piece kinds of a back rank, from column a to column h. */
  function BackRank(col: Coord): Kind {
    if col == 0 || col == 7 then Rook
    else if col == 1 || col == 6 then Knight
    else if col == 2 || col == 5 then Bishop
    else if col == 3 then Queen
    else King
  }

  /** The content of cell (row, col) in the starting position. */
  function InitialCell(row: Coord, col: Coord): (cell: Cell)
    ensures cell.Some? <==> row <= 1 || row >= 6
    ensures cell.Some? ==> cell.value.color == (if row <= 1 then White else Black)
    ensures cell.Some? ==> !cell.value.hasMoved
    ensures cell.Some? ==> (cell.value.kind == Pawn <==> row == 1 || row == 6)
    ensures cell.Some? && cell.value.kind == King <==> col == 4 && (row == 0 || row == 7)
  {
    if row == 1 then Some(Piece(Pawn, White, false))
    else if row == 6 then Some(Piece(Pawn, Black, false))
    else if row == 0 then Some(Piece(BackRank(col), White, false))
    else if row == 7 then Some(Piece(BackRank(col), Black, false))
    else None
  }

  /**
   * The standard starting position: White fills rows 0 and 1, Black rows 6
   * and 7, rows 2 to 5 are empty, no piece has moved, and the kings stand on
   * (0,4) and (7,4).
   */
  function Initial(): (b: Board)
    ensures forall r: Coord, c: Coord :: b[r][c] == InitialCell(r, c)
    ensures forall r: Coord, c: Coord :: b[r][c].Some? <==> r <= 1 || r >= 6
    ensures forall r: Coord, c: Coord :: b[r][c].Some? ==>
      b[r][c].value.color == (if r <= 1 then White else Black) && !b[r][c].value.hasMoved
    ensures b[0][4] == Some(Piece(King, White, false)) && b[7][4] == Some(Piece(King, Black, false))
  {
    seq(8, r requires 0 <= r < 8 => seq(8, c requires 0 <= c < 8 => InitialCell(r, c)))
  }

  /** The board held by an 8x8 array, read as a value. */
  function Grid(a: array2<Cell>): (b: Board)
    requires a.Length0 == 8 && a.Length1 == 8
    reads a
    ensures forall r, c :: 0 <= r < 8 && 0 <= c < 8 ==> b[r][c] == a[r, c]
  {
    seq(8, r requires 0 <= r < 8 reads a => seq(8, c requires 0 <= c < 8 reads a => a[r, c]))
  }

  /**
   * The step of the setup in which cell (row, col) receives its piece:
   * 0 for the pawns, then 1 rooks, 2 knights, 3 bishops, 4 queens, 5 kings;
   * 6 for the cells that stay empty.
   */
  function SetupStep(row: Coord, col: Coord): nat {
    if row == 1 || row == 6 then 0
    else if row != 0 && row != 7 then 6
    else match BackRank(col)
      case Rook => 1
      case Knight => 2
      case Bishop => 3
      case Queen => 4
      case King => 5
      case Pawn => 6
  }

  /** The array holds the starting position up to step `k` of the setup. */
  ghost predicate SetUpTo(a: array2<Cell>, k: nat)
    requires a.Length0 == 8 && a.Length1 == 8
    reads a
  {
    forall r: Coord, c: Coord :: a[r, c] == if SetupStep(r, c) <= k then InitialCell(r, c) else None
  }

  /**
   * initialBoard: allocates an 8x8 grid of empty cells, places the two pawn
   * rows in a loop, then the back-rank pieces kind by kind.
   */
  method InitialBoard() returns (a: array2<Cell>)
    ensures fresh(a) && a.Length0 == 8 && a.Length1 == 8
    ensures Grid(a) == Initial()
  {
    a := new Cell[8, 8]((r, c) => None);
    SetUpPawns(a);
    SetUpRooks(a);
    SetUpKnights(a);
    SetUpBishops(a);
    SetUpQueens(a);
    SetUpKings(a);
    BoardExtensionality(Grid(a), Initial());
  }

  method SetUpPawns(a: array2<Cell>)
    requires a.Length0 == 8 && a.Length1 == 8
    requires forall r: Coord, c: Coord :: a[r, c] == None
    modifies a
    ensures SetUpTo(a, 0)
  {
    for i := 0 to 8
      invariant forall r: Coord, c: Coord ::
        a[r, c] == if (r == 1 || r == 6) && c < i then InitialCell(r, c) else None
    {
      a[1, i] := Some(Piece(Pawn, White, false));
      a[6, i] := Some(Piece(Pawn, Black, false));
    }
  }

  method SetUpRooks(a: array2<Cell>)
    requires a.Length0 == 8 && a.Length1 == 8 && SetUpTo(a, 0)
    modifies a
    ensures SetUpTo(a, 1)
  {
    a[0, 0] := Some(Piece(Rook, White, false));
    a[0, 7] := Some(Piece(Rook, White, false));
    a[7, 0] := Some(Piece(Rook, Black, false));
    a[7, 7] := Some(Piece(Rook, Black, false));
  }

  method SetUpKnights(a: array2<Cell>)
    requires a.Length0 == 8 && a.Length1 == 8 && SetUpTo(a, 1)
    modifies a
    ensures SetUpTo(a, 2)
  {
    a[0, 1] := Some(Piece(Knight, White, false));
    a[0, 6] := Some(Piece(Knight, White, false));
    a[7, 1] := Some(Piece(Knight, Black, false));
    a[7, 6] := Some(Piece(Knight, Black, false));
  }

  method SetUpBishops(a: array2<Cell>)
    requires a.Length0 == 8 && a.Length1 == 8 && SetUpTo(a, 2)
    modifies a
    ensures SetUpTo(a, 3)
  {
    a[0, 2] := Some(Piece(Bishop, White, false));
    a[0, 5] := Some(Piece(Bishop, White, false));
    a[7, 2] := Some(Piece(Bishop, Black, false));
    a[7, 5] := Some(Piece(Bishop, Black, false));
  }

  method SetUpQueens(a: array2<Cell>)
    requires a.Length0 == 8 && a.Length1 == 8 && SetUpTo(a, 3)
    modifies a
    ensures SetUpTo(a, 4)
  {
    a[0, 3] := Some(Piece(Queen, White, false));
    a[7, 3] := Some(Piece(Queen, Black, false));
  }

  method SetUpKings(a: array2<Cell>)
    requires a.Length0 == 8 && a.Length1 == 8 && SetUpTo(a, 4)
    modifies a
    ensures SetUpTo(a, 5)
  {
    a[0, 4] := Some(Piece(King, White, false));
    a[7, 4] := Some(Piece(King, Black, false));
  }

  /** cloneBoard: a fresh mutable grid holding the same cells as `b`. */
  method CloneBoard(b: Board) returns (a: array2<Cell>)
    ensures fresh(a) && a.Length0 == 8 && a.Length1 == 8
    ensures Grid(a) == b
  {
    a := new Cell[8, 8]((r, c) => if 0 <= r < 8 && 0 <= c < 8 then b[r][c] else None);
    BoardExtensionality(Grid(a), b);
  }
}
