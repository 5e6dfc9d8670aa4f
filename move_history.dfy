/**
 * The move list beside the board: the history is grouped into numbered
 * rows, each holding White's move and, when it has been played, Black's
 * reply. An empty history shows a placeholder instead of the table.
 */
module MoveHistory {
  import opened BoardModel
  import opened GameEngine

  /** One numbered row of the list. */
  datatype MovePair = MovePair(moveNumber: nat, white: Move, black: Option<Move>)

  /** What the list shows. */
  datatype HistoryView = NoMovesYet | Rows(pairs: seq<MovePair>)

  /** Row `k` of the list: White's move is move `2k`, Black's is move `2k + 1` when it exists. */
  function PairAt(moves: seq<Move>, k: nat): MovePair
    requires 2 * k < |moves|
  {
    MovePair(k + 1, moves[2 * k], if 2 * k + 1 < |moves| then Some(moves[2 * k + 1]) else None)
  }

  /**
   * All the rows of the list: just enough for all the moves at two per row,
   * the last row possibly half full, and none exactly for an empty history.
   */
  function Pairs(moves: seq<Move>): (pairs: seq<MovePair>)
    ensures |moves| <= 2 * |pairs| <= |moves| + 1
    ensures |pairs| == 0 <==> moves == []
  {
    seq((|moves| + 1) / 2, k requires 0 <= k < (|moves| + 1) / 2 => PairAt(moves, k))
  }

  /** The moves a row holds, White's first. */
  function RowMoves(p: MovePair): seq<Move> {
    [p.white] + (if p.black.Some? then [p.black.value] else [])
  }

  /** The moves of the rows read top to bottom. */
  function Flatten(pairs: seq<MovePair>): seq<Move> {
    if pairs == [] then [] else Flatten(pairs[..|pairs| - 1]) + RowMoves(pairs[|pairs| - 1])
  }

  /**
   * The grouping loop: walks the history two moves at a time and appends a
   * row numbered by half the index.
   */
  method PairMoves(moves: seq<Move>) returns (movePairs: seq<MovePair>)
    ensures movePairs == Pairs(moves)
  {
    movePairs := [];
    var i := 0;
    while i < |moves|
      invariant 0 <= i <= |moves| + 1 && i % 2 == 0
      invariant |movePairs| == i / 2
      invariant forall k :: 0 <= k < |movePairs| ==> movePairs[k] == PairAt(moves, k)
    {
      movePairs := movePairs + [MovePair(i / 2 + 1, moves[i], if i + 1 < |moves| then Some(moves[i + 1]) else None)];
      i := i + 2;
    }
  }

  /** The list as shown: the placeholder exactly for an empty history, the rows otherwise. */
  method ShowHistory(moves: seq<Move>) returns (v: HistoryView)
    ensures v.NoMovesYet? <==> moves == []
    ensures v.Rows? ==> v.pairs == Pairs(moves) && v.pairs != []
  {
    var movePairs := PairMoves(moves);
    if |moves| == 0 {
      return NoMovesYet;
    }
    return Rows(movePairs);
  }

  /**
   * Rows are numbered from 1 in order; a row without Black's move is the
   * last row, and it occurs exactly when the number of moves is odd.
   */
  lemma PairsNumbering(moves: seq<Move>)
    ensures forall k :: 0 <= k < |Pairs(moves)| ==> Pairs(moves)[k].moveNumber == k + 1
    ensures forall k :: 0 <= k < |Pairs(moves)| && Pairs(moves)[k].black.None? ==>
      k == |Pairs(moves)| - 1 && |moves| % 2 == 1
    ensures |moves| % 2 == 1 ==> Pairs(moves)[|Pairs(moves)| - 1].black.None?
  {
  }

  /** The first `k` rows hold the first `2k` moves, or all of them when there are fewer. */
  lemma {:induction false} FlattenPrefix(moves: seq<Move>, k: nat)
    requires k <= |Pairs(moves)|
    ensures Flatten(Pairs(moves)[..k]) == moves[..if 2 * k <= |moves| then 2 * k else |moves|]
  {
    var p := Pairs(moves);
    if k > 0 {
      FlattenPrefix(moves, k - 1);
      assert p[..k][..k - 1] == p[..k - 1];
      var j := 2 * (k - 1);
      if j + 1 < |moves| {
        assert moves[..j] + [moves[j], moves[j + 1]] == moves[..j + 2];
      } else {
        assert moves[..j] + [moves[j]] == moves;
      }
    }
  }

  /** Reading the rows top to bottom, White before Black, gives back the history in order. */
  lemma FlattenPairs(moves: seq<Move>)
    ensures Flatten(Pairs(moves)) == moves
  {
    var p := Pairs(moves);
    FlattenPrefix(moves, |p|);
    assert p[..|p|] == p;
  }

  /** A game of three moves shows two rows, the second with White's move only. */
  lemma ThreeMoves(a: Move, b: Move, c: Move)
    ensures Pairs([a, b, c]) == [MovePair(1, a, Some(b)), MovePair(2, c, None)]
  {
  }
}
