/**
 * Short algebraic notation as the engine writes it: a piece letter (or, for
 * a capturing pawn, the file it leaves), an `x` on a capture, then the
 * destination square. There is no disambiguation and no check or mate
 * suffix.
 */
module Notation {
  import opened BoardModel

  const Files: string := "abcdefgh"
  const Ranks: string := "12345678"
  const PieceLetters: string := "KQRBN"

  /** The file letter of a column: column 0 is `a`. */
  function FileChar(col: Coord): char {
    Files[col]
  }

  /** The rank digit of a row: row 0 is `1`. */
  function RankChar(row: Coord): char {
    Ranks[row]
  }

  /** The letter of a non-pawn piece. */
  function Letter(kind: Kind): (c: char)
    requires kind != Pawn
    ensures c in PieceLetters
  {
    match kind
    case King => 'K'
    case Queen => 'Q'
    case Rook => 'R'
    case Bishop => 'B'
    case Knight => 'N'
  }

  /**
   * generateMoveNotation: the text for `piece` moving from `from` to `to`,
   * capturing `captured` when present.
   */
  function MoveNotation(from: Square, to: Square, piece: Piece, captured: Option<Piece>): (r: string)
    ensures 2 <= |r| <= 4
    ensures r[|r| - 2] == FileChar(to.col) && r[|r| - 1] == RankChar(to.row)
    ensures 'x' in r <==> captured.Some?
    ensures piece.kind != Pawn ==> r[0] == Letter(piece.kind)
    ensures piece.kind == Pawn ==> (|r| == 2 <==> captured.None?)
    ensures piece.kind == Pawn && captured.Some? ==> r[0] == FileChar(from.col)
  {
    var prefix := if piece.kind != Pawn then [Letter(piece.kind)]
      else if captured.Some? then [FileChar(from.col)]
      else [];
    var mark := if captured.Some? then "x" else "";
    prefix + mark + [FileChar(to.col), RankChar(to.row)]
  }

  // ---------------------------------------------------------------------
  // Reading the notation back.
  // ---------------------------------------------------------------------

  /** What a notation string says: the kind, the file a pawn capture leaves, the capture mark, the destination. */
  datatype Parsed = Parsed(kind: Kind, fromFile: Option<Coord>, capture: bool, to: Square)

  /** The position of `c` in `s`, if it occurs. */
  function IndexOf(c: char, s: string): (i: Option<nat>)
    ensures i.Some? ==> i.value < |s| && s[i.value] == c
    ensures i.None? <==> c !in s
    ensures i.Some? ==> forall j :: 0 <= j < i.value ==> s[j] != c
  {
    if s == [] then None
    else if s[0] == c then Some(0)
    else match IndexOf(c, s[1..])
      case None => None
      case Some(j) => Some(j + 1)
  }

  function KindOfLetter(c: char): Option<Kind> {
    match c
    case 'K' => Some(King)
    case 'Q' => Some(Queen)
    case 'R' => Some(Rook)
    case 'B' => Some(Bishop)
    case 'N' => Some(Knight)
    case _ => None
  }

  /** The square named by a file letter and a rank digit. */
  function ParseSquare(f: char, rk: char): Option<Square> {
    match (IndexOf(f, Files), IndexOf(rk, Ranks))
    case (Some(c), Some(row)) => Some(Square(row, c))
    case _ => None
  }

  /** The piece part in front of the optional `x`: empty for a pawn advance, a letter or a file. */
  function ParseHead(head: string, capture: bool): Option<(Kind, Option<Coord>)> {
    if head == [] then (if capture then None else Some((Pawn, None)))
    else if |head| != 1 then None
    else match KindOfLetter(head[0])
      case Some(k) => Some((k, None))
      case None =>
        match IndexOf(head[0], Files)
        case Some(c) => if capture then Some((Pawn, Some(c))) else None
        case None => None
  }

  /** Reads a notation string; `None` when it is not of the engine's form. */
  function Parse(r: string): Option<Parsed> {
    if |r| < 2 then None
    else
      match ParseSquare(r[|r| - 2], r[|r| - 1])
      case None => None
      case Some(to) =>
        var body := r[..|r| - 2];
        var capture := |body| > 0 && body[|body| - 1] == 'x';
        var head := if capture then body[..|body| - 1] else body;
        match ParseHead(head, capture)
        case None => None
        case Some(h) => Some(Parsed(h.0, h.1, capture, to))
  }

  predicate Distinct(s: string) {
    forall j, k :: 0 <= j < k < |s| ==> s[j] != s[k]
  }

  /** In a string without repeated characters, each character is found at its own position. */
  lemma IndexOfDistinct(s: string, i: nat)
    requires Distinct(s) && i < |s|
    ensures IndexOf(s[i], s) == Some(i)
  {
    assert s[i] in s;
  }

  /** Each column is named by its own file letter. */
  lemma FileIndex(col: Coord)
    ensures IndexOf(FileChar(col), Files) == Some(col as nat)
  {
    IndexOfDistinct(Files, col);
  }

  /** Each row is named by its own rank digit. */
  lemma RankIndex(row: Coord)
    ensures IndexOf(RankChar(row), Ranks) == Some(row as nat)
  {
    IndexOfDistinct(Ranks, row);
  }

  /** The column and row characters name each square exactly once. */
  lemma SquareCharsRoundTrip(sq: Square)
    ensures ParseSquare(FileChar(sq.col), RankChar(sq.row)) == Some(sq)
  {
    FileIndex(sq.col);
    RankIndex(sq.row);
  }

  /** The text of a move: a head, the capture mark when `capture`, and the destination square. */
  function Compose(head: string, capture: bool, to: Square): string {
    head + (if capture then "x" else "") + [FileChar(to.col), RankChar(to.row)]
  }

  /** Reading a composed text splits it back into its head, capture mark and destination. */
  lemma ParseCompose(head: string, capture: bool, to: Square)
    requires |head| <= 1 && head != "x"
    ensures Parse(Compose(head, capture, to)) ==
      match ParseHead(head, capture)
      case None => None
      case Some(h) => Some(Parsed(h.0, h.1, capture, to))
  {
    var r := Compose(head, capture, to);
    SquareCharsRoundTrip(to);
    assert r[|r| - 2] == FileChar(to.col) && r[|r| - 1] == RankChar(to.row);
    var body := r[..|r| - 2];
    assert body == head + (if capture then "x" else "");
    if capture {
      assert body[..|body| - 1] == head;
    }
  }

  /** No file letter is a piece letter. */
  lemma FileIsNotLetter(col: Coord)
    ensures KindOfLetter(FileChar(col)) == None
  {
  }

  /**
   * Reading back what the engine writes recovers the kind of the moving
   * piece, the file of a capturing pawn, whether it captured, and the
   * destination.
   */
  lemma NotationRoundTrip(from: Square, to: Square, piece: Piece, captured: Option<Piece>)
    ensures Parse(MoveNotation(from, to, piece, captured)) ==
      Some(Parsed(piece.kind, if piece.kind == Pawn && captured.Some? then Some(from.col) else None,
                  captured.Some?, to))
  {
    var head := if piece.kind != Pawn then [Letter(piece.kind)]
      else if captured.Some? then [FileChar(from.col)]
      else [];
    assert MoveNotation(from, to, piece, captured) == Compose(head, captured.Some?, to);
    ParseCompose(head, captured.Some?, to);
    if piece.kind != Pawn {
      assert ParseHead(head, captured.Some?) == Some((piece.kind, None)) by {
        LetterRoundTrip(piece.kind);
      }
    } else if captured.Some? {
      assert ParseHead(head, true) == Some((Pawn, Some(from.col))) by {
        FileIsNotLetter(from.col);
        FileIndex(from.col);
      }
    } else {
      assert ParseHead(head, false) == Some((Pawn, None));
    }
  }

  lemma LetterRoundTrip(kind: Kind)
    requires kind != Pawn
    ensures KindOfLetter(Letter(kind)) == Some(kind)
  {
  }

  /** A quiet pawn advance from e2 to e4 is written `e4`. */
  lemma PawnAdvanceExample()
    ensures MoveNotation(Square(1, 4), Square(3, 4), Piece(Pawn, White, false), None) == "e4"
  {
  }

  /** A pawn on d4 taking on e5 is written `dxe5`; a knight taking there is `Nxe5`. */
  lemma CaptureExamples(victim: Piece)
    ensures MoveNotation(Square(3, 3), Square(4, 4), Piece(Pawn, White, true), Some(victim)) == "dxe5"
    ensures MoveNotation(Square(2, 5), Square(4, 4), Piece(Knight, White, true), Some(victim)) == "Nxe5"
  {
  }
}
