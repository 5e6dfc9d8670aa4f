/**
 * Pseudo-legal move generation: for the piece on a square, the squares it
 * may move to, without castling, en passant, promotion or any test of
 * whether the mover's own king is left attacked.
 */
module MoveGen {
  import opened BoardModel

  /** A (row, column) displacement. */
  datatype Offset = Offset(dr: int, dc: int)

  /** A unit step of a sliding piece: each delta is -1, 0 or 1, not both 0. */
  predicate IsDirection(d: Offset) {
    -1 <= d.dr <= 1 && -1 <= d.dc <= 1 && (d.dr != 0 || d.dc != 0)
  }

  /** The step of a sliding piece. */
  type Direction = d: Offset | IsDirection(d) witness Offset(1, 0)

  const BishopDirections: seq<Direction> :=
    [Offset(1, 1), Offset(1, -1), Offset(-1, 1), Offset(-1, -1)]

  const RookDirections: seq<Direction> :=
    [Offset(1, 0), Offset(-1, 0), Offset(0, 1), Offset(0, -1)]

  const KnightOffsets: seq<Offset> :=
    [Offset(2, 1), Offset(2, -1), Offset(-2, 1), Offset(-2, -1),
     Offset(1, 2), Offset(1, -2), Offset(-1, 2), Offset(-1, -2)]

  const KingOffsets: seq<Offset> :=
    [Offset(1, 0), Offset(-1, 0), Offset(0, 1), Offset(0, -1),
     Offset(1, 1), Offset(1, -1), Offset(-1, 1), Offset(-1, -1)]

  /** A ray walk cannot enter (row, col): it is off the board or holds a piece of the mover. */
  predicate Blocked(b: Board, color: Color, row: int, col: int) {
    !InBounds(row, col) || OwnedBy(b, Square(row, col), color)
  }

  /** How many steps in direction `d` remain before (row, col) leaves the board. */
  function Remaining(row: int, col: int, d: Direction): int {
    (if d.dr == 1 then 8 - row else if d.dr == -1 then row + 1 else 0) +
    (if d.dc == 1 then 8 - col else if d.dc == -1 then col + 1 else 0)
  }

  /**
   * The squares a sliding piece of colour `color` reaches walking in direction
   * `d`, starting with (row, col): empty squares are taken and the walk goes
   * on; the first occupied square ends it, and is taken only if it holds an
   * enemy piece.
   */
  function Ray(b: Board, color: Color, row: int, col: int, d: Direction): seq<Square>
    decreases Remaining(row, col, d)
  {
    if !InBounds(row, col) then []
    else if b[row][col].None? then [Square(row, col)] + Ray(b, color, row + d.dr, col + d.dc, d)
    else if b[row][col].value.color != color then [Square(row, col)]
    else []
  }

  function Last(ray: seq<Square>): Square
    requires |ray| > 0
  {
    ray[|ray| - 1]
  }

  /** Consecutive squares of `ray` are one step of `d` apart. */
  predicate Advances(ray: seq<Square>, d: Direction) {
    forall i :: 0 < i < |ray| ==>
      ray[i].row == ray[i - 1].row + d.dr && ray[i].col == ray[i - 1].col + d.dc
  }

  /** A ray starts at (row, col) and advances one step of `d` at a time. */
  lemma {:induction false} RaySteps(b: Board, color: Color, row: int, col: int, d: Direction)
    decreases Remaining(row, col, d)
    ensures |Ray(b, color, row, col, d)| > 0 ==>
      Ray(b, color, row, col, d)[0].row == row && Ray(b, color, row, col, d)[0].col == col
    ensures Advances(Ray(b, color, row, col, d), d)
  {
    if InBounds(row, col) && b[row][col].None? {
      RaySteps(b, color, row + d.dr, col + d.dc, d);
      var rest := Ray(b, color, row + d.dr, col + d.dc, d);
      var ray := Ray(b, color, row, col, d);
      assert ray == [Square(row, col)] + rest;
      AdvancesCons(Square(row, col), rest, d);
    }
  }

  lemma AdvancesCons(sq: Square, rest: seq<Square>, d: Direction)
    requires Advances(rest, d)
    requires |rest| > 0 ==> rest[0].row == sq.row + d.dr && rest[0].col == sq.col + d.dc
    ensures Advances([sq] + rest, d)
  {
    var ray := [sq] + rest;
    forall i | 0 < i < |ray|
      ensures ray[i].row == ray[i - 1].row + d.dr && ray[i].col == ray[i - 1].col + d.dc
    {
      assert ray[i] == rest[i - 1];
      if i > 1 {
        assert ray[i - 1] == rest[i - 2];
      }
    }
  }

  /**
   * Every square of a ray but the last is empty, so only empty squares lie
   * between the origin and any square the ray reaches.
   */
  lemma {:induction false} RayOverEmpty(b: Board, color: Color, row: int, col: int, d: Direction)
    decreases Remaining(row, col, d)
    ensures forall i :: 0 <= i < |Ray(b, color, row, col, d)| - 1 ==>
      IsEmpty(b, Ray(b, color, row, col, d)[i])
  {
    if InBounds(row, col) && b[row][col].None? {
      RayOverEmpty(b, color, row + d.dr, col + d.dc, d);
      var rest := Ray(b, color, row + d.dr, col + d.dc, d);
      var ray := Ray(b, color, row, col, d);
      assert ray == [Square(row, col)] + rest;
      forall i | 0 < i < |ray| - 1
        ensures IsEmpty(b, ray[i])
      {
        assert ray[i] == rest[i - 1];
      }
    }
  }

  /**
   * A ray ends at the first occupied square: its last square either holds an
   * enemy piece (the capture), or is empty and the next step is blocked.
   */
  lemma {:induction false} RayStops(b: Board, color: Color, row: int, col: int, d: Direction)
    decreases Remaining(row, col, d)
    ensures |Ray(b, color, row, col, d)| == 0 <==> Blocked(b, color, row, col)
    ensures |Ray(b, color, row, col, d)| > 0 ==>
      OwnedBy(b, Last(Ray(b, color, row, col, d)), Opposite(color)) ||
      Blocked(b, color, Last(Ray(b, color, row, col, d)).row + d.dr, Last(Ray(b, color, row, col, d)).col + d.dc)
  {
    if InBounds(row, col) && b[row][col].None? {
      RayStops(b, color, row + d.dr, col + d.dc, d);
      var rest := Ray(b, color, row + d.dr, col + d.dc, d);
      var ray := Ray(b, color, row, col, d);
      assert ray == [Square(row, col)] + rest;
      if rest != [] {
        assert Last(ray) == Last(rest);
      }
    }
  }

  /** A ray never reaches a square holding a piece of the mover's colour. */
  lemma {:induction false} RaySound(b: Board, color: Color, row: int, col: int, d: Direction)
    decreases Remaining(row, col, d)
    ensures forall t :: t in Ray(b, color, row, col, d) ==> !OwnedBy(b, t, color)
  {
    if InBounds(row, col) && b[row][col].None? {
      RaySound(b, color, row + d.dr, col + d.dc, d);
    }
  }

  /** The rays from (row, col) in each direction of `dirs`, in that order. */
  function Rays(b: Board, color: Color, row: Coord, col: Coord, dirs: seq<Direction>): seq<Square>
  {
    if dirs == [] then []
    else Ray(b, color, row + dirs[0].dr, col + dirs[0].dc, dirs[0]) + Rays(b, color, row, col, dirs[1..])
  }

  /** The rays over `dirs[k..]` are the ray in direction k followed by those over `dirs[k + 1..]`. */
  lemma RaysCons(b: Board, color: Color, row: Coord, col: Coord, dirs: seq<Direction>, k: nat)
    requires k < |dirs|
    ensures Rays(b, color, row, col, dirs[k..]) ==
      Ray(b, color, row + dirs[k].dr, col + dirs[k].dc, dirs[k]) + Rays(b, color, row, col, dirs[k + 1..])
  {
    assert dirs[k..][1..] == dirs[k + 1..];
  }

  lemma ConcatAssoc<T>(xs: seq<T>, ys: seq<T>, zs: seq<T>)
    ensures xs + (ys + zs) == xs + ys + zs
  {
  }

  /** No ray of a sliding piece reaches a square holding a piece of its own colour. */
  lemma {:induction false} RaysSound(b: Board, color: Color, row: Coord, col: Coord, dirs: seq<Direction>)
    ensures forall t :: t in Rays(b, color, row, col, dirs) ==> !OwnedBy(b, t, color)
  {
    if dirs != [] {
      RaySound(b, color, row + dirs[0].dr, col + dirs[0].dc, dirs[0]);
      RaysSound(b, color, row, col, dirs[1..]);
    }
  }

  /**
   * The squares (row, col) + o, for each offset o in order, that are on the
   * board and do not hold a piece of colour `color`.
   */
  function Steps(b: Board, color: Color, row: Coord, col: Coord, offsets: seq<Offset>): (moves: seq<Square>)
    ensures |moves| <= |offsets|
    ensures forall t :: t in moves ==> !OwnedBy(b, t, color)
  {
    if offsets == [] then []
    else
      var o := offsets[|offsets| - 1];
      var newRow, newCol := row + o.dr, col + o.dc;
      Steps(b, color, row, col, offsets[..|offsets| - 1]) +
      (if InBounds(newRow, newCol) && !OwnedBy(b, Square(newRow, newCol), color)
       then [Square(newRow, newCol)] else [])
  }

  function PawnDirection(color: Color): int {
    if color == White then 1 else -1
  }

  function StartingRow(color: Color): Coord {
    if color == White then 1 else 6
  }

  /** The forward moves of a pawn: one step onto an empty square, then possibly two from the starting row. */
  function PawnAdvances(b: Board, row: Coord, col: Coord, color: Color): seq<Square> {
    var dir := PawnDirection(color);
    if InBounds(row + dir, col) && b[row + dir][col].None? then
      [Square(row + dir, col)] +
      (if row == StartingRow(color) && b[row + 2 * dir][col].None?
       then [Square(row + 2 * dir, col)] else [])
    else []
  }

  /** The diagonal capture of a pawn towards column offset `colOffset`, if the square holds an enemy piece. */
  function PawnCapture(b: Board, row: Coord, col: Coord, color: Color, colOffset: int): seq<Square> {
    var newRow, newCol := row + PawnDirection(color), col + colOffset;
    if InBounds(newRow, newCol) && b[newRow][newCol].Some? && b[newRow][newCol].value.color != color
    then [Square(newRow, newCol)] else []
  }

  /** The diagonal captures of a pawn, for each column offset in order. */
  function PawnCaptures(b: Board, row: Coord, col: Coord, color: Color, colOffsets: seq<int>): (moves: seq<Square>)
    ensures forall t :: t in moves ==> OwnedBy(b, t, Opposite(color))
  {
    if colOffsets == [] then []
    else
      PawnCaptures(b, row, col, color, colOffsets[..|colOffsets| - 1]) +
      PawnCapture(b, row, col, color, colOffsets[|colOffsets| - 1])
  }

  function PawnMoves(b: Board, row: Coord, col: Coord, color: Color): seq<Square> {
    PawnAdvances(b, row, col, color) + PawnCaptures(b, row, col, color, [-1, 1])
  }

  function KnightMoves(b: Board, row: Coord, col: Coord, color: Color): seq<Square> {
    Steps(b, color, row, col, KnightOffsets)
  }

  function BishopMoves(b: Board, row: Coord, col: Coord, color: Color): seq<Square> {
    Rays(b, color, row, col, BishopDirections)
  }

  function RookMoves(b: Board, row: Coord, col: Coord, color: Color): seq<Square> {
    Rays(b, color, row, col, RookDirections)
  }

  /** A queen moves as a bishop, then as a rook. */
  function QueenMoves(b: Board, row: Coord, col: Coord, color: Color): seq<Square> {
    BishopMoves(b, row, col, color) + RookMoves(b, row, col, color)
  }

  function KingMoves(b: Board, row: Coord, col: Coord, color: Color): seq<Square> {
    Steps(b, color, row, col, KingOffsets)
  }

  /**
   * getLegalMoves: the destinations of the piece on (row, col), none for an
   * empty square. No destination holds a piece of the mover's colour, so the
   * origin itself is never one.
   */
  function LegalMoves(b: Board, row: Coord, col: Coord): (moves: seq<Square>)
    ensures b[row][col].None? ==> moves == []
    ensures b[row][col].Some? ==> forall t :: t in moves ==>
      !OwnedBy(b, t, b[row][col].value.color) && t != Square(row, col)
  {
    match b[row][col]
    case None => []
    case Some(p) =>
      PawnCapturesSound(b, row, col, p.color);
      RaysSound(b, p.color, row, col, BishopDirections);
      RaysSound(b, p.color, row, col, RookDirections);
      match p.kind
      case Pawn => PawnMoves(b, row, col, p.color)
      case Knight => KnightMoves(b, row, col, p.color)
      case Bishop => BishopMoves(b, row, col, p.color)
      case Rook => RookMoves(b, row, col, p.color)
      case Queen => QueenMoves(b, row, col, p.color)
      case King => KingMoves(b, row, col, p.color)
  }

  /** A pawn's moves never land on a piece of its own colour. */
  lemma PawnCapturesSound(b: Board, row: Coord, col: Coord, color: Color)
    ensures forall t :: t in PawnMoves(b, row, col, color) ==> !OwnedBy(b, t, color)
  {
  }

  // ---------------------------------------------------------------------
  // The generators as the engine runs them: loops that push onto `moves`.
  // ---------------------------------------------------------------------

  /** getPawnMoves */
  method GetPawnMoves(b: Board, row: Coord, col: Coord, color: Color) returns (moves: seq<Square>)
    ensures moves == PawnMoves(b, row, col, color)
  {
    moves := GetPawnAdvances(b, row, col, color);
    var direction := if color == White then 1 else -1;
    var colOffsets := [-1, 1];
    for k := 0 to |colOffsets|
      invariant moves == PawnAdvances(b, row, col, color) + PawnCaptures(b, row, col, color, colOffsets[..k])
    {
      assert colOffsets[..k + 1][..k] == colOffsets[..k];
      ConcatAssoc(PawnAdvances(b, row, col, color), PawnCaptures(b, row, col, color, colOffsets[..k]),
        PawnCapture(b, row, col, color, colOffsets[k]));
      var newCol := col + colOffsets[k];
      var newRow := row + direction;
      if InBounds(newRow, newCol) && b[newRow][newCol].Some? && b[newRow][newCol].value.color != color {
        moves := moves + [Square(newRow, newCol)];
      }
    }
    assert colOffsets[..|colOffsets|] == colOffsets;
  }

  /** The first half of getPawnMoves: one step forward, then two from the starting row. */
  method GetPawnAdvances(b: Board, row: Coord, col: Coord, color: Color) returns (moves: seq<Square>)
    ensures moves == PawnAdvances(b, row, col, color)
  {
    moves := [];
    var direction := if color == White then 1 else -1;
    var startingRow := if color == White then 1 else 6;
    if InBounds(row + direction, col) && b[row + direction][col].None? {
      moves := moves + [Square(row + direction, col)];
      if row == startingRow && b[row + 2 * direction][col].None? {
        moves := moves + [Square(row + 2 * direction, col)];
      }
    }
  }

  /** The loop shared by getKnightMoves and getKingMoves: try each offset in turn. */
  method GetStepMoves(b: Board, row: Coord, col: Coord, color: Color, offsets: seq<Offset>)
    returns (moves: seq<Square>)
    ensures moves == Steps(b, color, row, col, offsets)
  {
    moves := [];
    for k := 0 to |offsets|
      invariant moves == Steps(b, color, row, col, offsets[..k])
    {
      var newRow := row + offsets[k].dr;
      var newCol := col + offsets[k].dc;
      if InBounds(newRow, newCol) && (b[newRow][newCol].None? || b[newRow][newCol].value.color != color) {
        moves := moves + [Square(newRow, newCol)];
      }
      assert offsets[..k + 1][..k] == offsets[..k];
    }
    assert offsets[..|offsets|] == offsets;
  }

  /**
   * One direction of the walk in getBishopMoves and getRookMoves: step from
   * the origin along `d`, taking empty squares, until the board edge or a
   * piece; an enemy piece is taken as the last square.
   */
  method WalkRay(b: Board, color: Color, row: Coord, col: Coord, d: Direction) returns (ray: seq<Square>)
    ensures ray == Ray(b, color, row + d.dr, col + d.dc, d)
  {
    ray := [];
    var newRow, newCol := row + d.dr, col + d.dc;
    while InBounds(newRow, newCol)
      invariant ray + Ray(b, color, newRow, newCol, d) == Ray(b, color, row + d.dr, col + d.dc, d)
      decreases Remaining(newRow, newCol, d)
    {
      if b[newRow][newCol].None? {
        ray := ray + [Square(newRow, newCol)];
      } else {
        if b[newRow][newCol].value.color != color {
          ray := ray + [Square(newRow, newCol)];
        }
        break;
      }
      newRow, newCol := newRow + d.dr, newCol + d.dc;
    }
  }

  /** The loop shared by getBishopMoves and getRookMoves: walk each direction in turn. */
  method GetSlidingMoves(b: Board, row: Coord, col: Coord, color: Color, dirs: seq<Direction>)
    returns (moves: seq<Square>)
    ensures moves == Rays(b, color, row, col, dirs)
  {
    moves := [];
    for k := 0 to |dirs|
      invariant moves + Rays(b, color, row, col, dirs[k..]) == Rays(b, color, row, col, dirs)
    {
      var ray := WalkRay(b, color, row, col, dirs[k]);
      RaysCons(b, color, row, col, dirs, k);
      ConcatAssoc(moves, ray, Rays(b, color, row, col, dirs[k + 1..]));
      moves := moves + ray;
    }
  }

  method GetKnightMoves(b: Board, row: Coord, col: Coord, color: Color) returns (moves: seq<Square>)
    ensures moves == KnightMoves(b, row, col, color)
  {
    moves := GetStepMoves(b, row, col, color, KnightOffsets);
  }

  method GetBishopMoves(b: Board, row: Coord, col: Coord, color: Color) returns (moves: seq<Square>)
    ensures moves == BishopMoves(b, row, col, color)
  {
    moves := GetSlidingMoves(b, row, col, color, BishopDirections);
  }

  method GetRookMoves(b: Board, row: Coord, col: Coord, color: Color) returns (moves: seq<Square>)
    ensures moves == RookMoves(b, row, col, color)
  {
    moves := GetSlidingMoves(b, row, col, color, RookDirections);
  }

  method GetQueenMoves(b: Board, row: Coord, col: Coord, color: Color) returns (moves: seq<Square>)
    ensures moves == QueenMoves(b, row, col, color)
  {
    var diagonal := GetBishopMoves(b, row, col, color);
    var straight := GetRookMoves(b, row, col, color);
    moves := diagonal + straight;
  }

  method GetKingMoves(b: Board, row: Coord, col: Coord, color: Color) returns (moves: seq<Square>)
    ensures moves == KingMoves(b, row, col, color)
  {
    moves := GetStepMoves(b, row, col, color, KingOffsets);
  }

  /** getLegalMoves: dispatch on the kind of the piece on (row, col). */
  method GetLegalMoves(b: Board, row: Coord, col: Coord) returns (moves: seq<Square>)
    ensures moves == LegalMoves(b, row, col)
  {
    var piece := b[row][col];
    if piece.None? {
      return [];
    }
    moves := [];
    match piece.value.kind {
      case Pawn => moves := GetPawnMoves(b, row, col, piece.value.color);
      case Knight => moves := GetKnightMoves(b, row, col, piece.value.color);
      case Bishop => moves := GetBishopMoves(b, row, col, piece.value.color);
      case Rook => moves := GetRookMoves(b, row, col, piece.value.color);
      case Queen => moves := GetQueenMoves(b, row, col, piece.value.color);
      case King => moves := GetKingMoves(b, row, col, piece.value.color);
    }
  }

  // ---------------------------------------------------------------------
  // Properties of the generators.
  // ---------------------------------------------------------------------

  /** The square (row, col) + o is t. */
  predicate Hits(row: int, col: int, o: Offset, t: Square) {
    t.row == row + o.dr && t.col == col + o.dc
  }

  /**
   * Knight and king moves: a square is produced exactly when it is (row, col)
   * plus one of the offsets and does not hold a piece of the mover's colour;
   * empty and enemy-occupied squares both qualify.
   */
  lemma {:induction false} StepsExact(b: Board, color: Color, row: Coord, col: Coord, offsets: seq<Offset>, t: Square)
    ensures t in Steps(b, color, row, col, offsets) <==>
      !OwnedBy(b, t, color) && exists k :: 0 <= k < |offsets| && Hits(row, col, offsets[k], t)
  {
    if offsets != [] {
      var n := |offsets| - 1;
      StepsExact(b, color, row, col, offsets[..n], t);
      if exists k :: 0 <= k < n && Hits(row, col, offsets[..n][k], t) {
        var k :| 0 <= k < n && Hits(row, col, offsets[..n][k], t);
        assert offsets[k] == offsets[..n][k];
      }
      if k :| 0 <= k < |offsets| && Hits(row, col, offsets[k], t) {
        if k < n {
          assert offsets[..n][k] == offsets[k];
        }
      }
    }
  }

  /** A knight has at most eight moves, each one of its eight jumps. */
  lemma KnightMovesExact(b: Board, row: Coord, col: Coord, color: Color, t: Square)
    ensures |KnightMoves(b, row, col, color)| <= 8
    ensures t in KnightMoves(b, row, col, color) <==>
      !OwnedBy(b, t, color) && exists k :: 0 <= k < 8 && Hits(row, col, KnightOffsets[k], t)
  {
    StepsExact(b, color, row, col, KnightOffsets, t);
  }

  /** A king has at most eight moves, each one step in one of the eight directions. */
  lemma KingMovesExact(b: Board, row: Coord, col: Coord, color: Color, t: Square)
    ensures |KingMoves(b, row, col, color)| <= 8
    ensures t in KingMoves(b, row, col, color) <==>
      !OwnedBy(b, t, color) && exists k :: 0 <= k < 8 && Hits(row, col, KingOffsets[k], t)
  {
    StepsExact(b, color, row, col, KingOffsets, t);
  }

  /**
   * The pawn rule: one step forward onto an empty square; two steps from the
   * starting row when both squares are empty; one step diagonally forward
   * onto a square holding an enemy piece.
   */
  predicate PawnTarget(b: Board, row: Coord, col: Coord, color: Color, t: Square) {
    AdvanceTarget(b, row, col, color, t) || CaptureTarget(b, row, col, color, t)
  }

  predicate AdvanceTarget(b: Board, row: Coord, col: Coord, color: Color, t: Square) {
    || (t.col == col && t.row == row + PawnDirection(color) && IsEmpty(b, t))
    || (row == StartingRow(color) && t.col == col && t.row == row + 2 * PawnDirection(color)
        && IsEmpty(b, t) && b[row + PawnDirection(color)][col].None?)
  }

  predicate CaptureTarget(b: Board, row: Coord, col: Coord, color: Color, t: Square) {
    (t.col == col - 1 || t.col == col + 1) && t.row == row + PawnDirection(color)
    && OwnedBy(b, t, Opposite(color))
  }

  lemma PawnMovesExact(b: Board, row: Coord, col: Coord, color: Color, t: Square)
    ensures t in PawnMoves(b, row, col, color) <==> PawnTarget(b, row, col, color, t)
  {
    PawnAdvancesExact(b, row, col, color, t);
    PawnCapturesExact(b, row, col, color, t);
  }

  lemma PawnAdvancesExact(b: Board, row: Coord, col: Coord, color: Color, t: Square)
    ensures t in PawnAdvances(b, row, col, color) <==> AdvanceTarget(b, row, col, color, t)
  {
  }

  lemma PawnCapturesExact(b: Board, row: Coord, col: Coord, color: Color, t: Square)
    ensures t in PawnCaptures(b, row, col, color, [-1, 1]) <==> CaptureTarget(b, row, col, color, t)
  {
    PawnCapturesBothSides(b, row, col, color);
  }

  lemma PawnCapturesBothSides(b: Board, row: Coord, col: Coord, color: Color)
    ensures PawnCaptures(b, row, col, color, [-1, 1]) ==
      PawnCapture(b, row, col, color, -1) + PawnCapture(b, row, col, color, 1)
  {
    var offsets := [-1, 1];
    assert offsets[..1] == [-1];
    assert [-1][..0] == [];
    assert PawnCaptures(b, row, col, color, offsets) ==
      PawnCaptures(b, row, col, color, [-1]) + PawnCapture(b, row, col, color, 1);
    assert PawnCaptures(b, row, col, color, [-1]) ==
      PawnCaptures(b, row, col, color, []) + PawnCapture(b, row, col, color, -1);
  }

  /** On the starting position every pawn has exactly its one- and two-step advances. */
  lemma InitialPawnMoves(col: Coord)
    ensures LegalMoves(Initial(), 1, col) == [Square(2, col), Square(3, col)]
    ensures LegalMoves(Initial(), 6, col) == [Square(5, col), Square(4, col)]
  {
    PawnCapturesBothSides(Initial(), 1, col, White);
    PawnCapturesBothSides(Initial(), 6, col, Black);
  }

  /** Walking down an empty file from `row` reaches every square up to the last rank. */
  lemma {:induction false} ClearFile(b: Board, color: Color, row: int, col: Coord)
    requires 0 <= row <= 8
    requires forall r :: row <= r < 8 ==> b[r][col].None?
    decreases 8 - row
    ensures |Ray(b, color, row, col, Offset(1, 0))| == 8 - row
    ensures forall t :: t in Ray(b, color, row, col, Offset(1, 0)) <==> t.col == col && t.row >= row
  {
    if row < 8 {
      ClearFile(b, color, row + 1, col);
    }
  }

  /** Walking along an empty rank from `col` reaches every square up to the last file. */
  lemma {:induction false} ClearRank(b: Board, color: Color, row: Coord, col: int)
    requires 0 <= col <= 8
    requires forall c :: col <= c < 8 ==> b[row][c].None?
    decreases 8 - col
    ensures |Ray(b, color, row, col, Offset(0, 1))| == 8 - col
    ensures forall t :: t in Ray(b, color, row, col, Offset(0, 1)) <==> t.row == row && t.col >= col
  {
    if col < 8 {
      ClearRank(b, color, row, col + 1);
    }
  }

  /** The rook's moves are its four rays, in the engine's direction order. */
  lemma RookRays(b: Board, color: Color, row: Coord, col: Coord)
    ensures RookMoves(b, row, col, color) ==
      Ray(b, color, row + 1, col, Offset(1, 0)) + Ray(b, color, row - 1, col, Offset(-1, 0)) +
      Ray(b, color, row, col + 1, Offset(0, 1)) + Ray(b, color, row, col - 1, Offset(0, -1))
  {
    var dirs := RookDirections;
    var t1 := [Offset(-1, 0), Offset(0, 1), Offset(0, -1)];
    var t2 := [Offset(0, 1), Offset(0, -1)];
    var t3 := [Offset(0, -1)];
    assert dirs[1..] == t1 && t1[1..] == t2 && t2[1..] == t3 && t3[1..] == [];
    var r0, r1 := Ray(b, color, row + 1, col, Offset(1, 0)), Ray(b, color, row - 1, col, Offset(-1, 0));
    var r2, r3 := Ray(b, color, row, col + 1, Offset(0, 1)), Ray(b, color, row, col - 1, Offset(0, -1));
    assert Rays(b, color, row, col, t3) == r3;
    assert Rays(b, color, row, col, t2) == r2 + r3;
    assert Rays(b, color, row, col, t1) == r1 + (r2 + r3);
    assert Rays(b, color, row, col, dirs) == r0 + (r1 + (r2 + r3));
    ConcatAssoc(r1, r2, r3);
    ConcatAssoc(r0, r1 + r2, r3);
    ConcatAssoc(r0, r1, r2);
  }

  /**
   * A rook in the corner (0, 0) whose rank and file are otherwise empty moves
   * along its file, then along its rank.
   */
  lemma CornerRookRays(b: Board, rook: Piece)
    requires b[0][0] == Some(rook) && rook.kind == Rook
    ensures LegalMoves(b, 0, 0) ==
      Ray(b, rook.color, 1, 0, Offset(1, 0)) + Ray(b, rook.color, 0, 1, Offset(0, 1))
  {
    RookRays(b, rook.color, 0, 0);
    assert LegalMoves(b, 0, 0) == RookMoves(b, 0, 0, rook.color);
    assert Ray(b, rook.color, -1, 0, Offset(-1, 0)) == [];
    assert Ray(b, rook.color, 0, -1, Offset(0, -1)) == [];
  }

  /**
   * A rook in the corner (0, 0) whose rank and file are otherwise empty
   * reaches exactly the 14 other squares of that rank and file.
   */
  lemma CornerRookMoves(b: Board, rook: Piece)
    requires b[0][0] == Some(rook) && rook.kind == Rook
    requires forall r :: 1 <= r < 8 ==> b[r][0].None?
    requires forall c :: 1 <= c < 8 ==> b[0][c].None?
    ensures |LegalMoves(b, 0, 0)| == 14
    ensures forall t :: t in LegalMoves(b, 0, 0) <==> (t.row == 0) != (t.col == 0)
  {
    var file, rank := Ray(b, rook.color, 1, 0, Offset(1, 0)), Ray(b, rook.color, 0, 1, Offset(0, 1));
    ClearFile(b, rook.color, 1, 0);
    ClearRank(b, rook.color, 0, 1);
    CornerRookRays(b, rook);
    RankAndFile(file, rank);
  }

  /** A full file above (0, 0) followed by a full rank beside it covers the 14 squares of the two lines. */
  lemma RankAndFile(file: seq<Square>, rank: seq<Square>)
    requires |file| == 7 && forall t :: t in file <==> t.col == 0 && t.row >= 1
    requires |rank| == 7 && forall t :: t in rank <==> t.row == 0 && t.col >= 1
    ensures |file + rank| == 14
    ensures forall t :: t in file + rank <==> (t.row == 0) != (t.col == 0)
  {
  }
}
