/**
 * The rules library (python-chess) as the game sees it. Its internals (move
 * generation, check and mate detection) are not part of this model: a
 * position is an opaque value that carries exactly what the game asks of it.
 */
module Rules {
  import opened Wrappers

  datatype Side = White | Black

  function Opponent(side: Side): (r: Side)
    ensures r != side
  {
    if side == White then Black else White
  }

  datatype PieceType = Pawn | Knight | Bishop | Rook | Queen | King

  datatype Piece = Piece(pieceType: PieceType, color: Side)

  /** A move from one square index to another, with an optional promotion. */
  datatype Move = Move(fromSquare: int, toSquare: int, promotion: Option<PieceType>)

  /**
   * What the game reads from a board: whose turn it is, `piece_at`, the
   * legal moves in the library's order, which moves capture (`is_capture`,
   * asked before the push), `fullmove_number`, and the classifications of
   * the position.
   */
  datatype Position = Position(
    turn: Side,
    pieces: map<int, Piece>,
    legalMoves: seq<Move>,
    captures: set<Move>,
    fullmoveNumber: int,
    isCheck: bool,
    isCheckmate: bool,
    isStalemate: bool,
    isInsufficientMaterial: bool)

  /** `piece_at`: the piece on a square, or None for an empty square. */
  function PieceAt(p: Position, square: int): (r: Option<Piece>)
    ensures r.Some? <==> square in p.pieces
    ensures r.Some? ==> r.value == p.pieces[square]
  {
    if square in p.pieces then Some(p.pieces[square]) else None
  }

  /**
   * What the library promises of `push`: the turn passes to the other side,
   * and the full-move number goes up after Black has moved.
   */
  predicate Pushes(before: Position, move: Move, after: Position)
  {
    after.turn == Opponent(before.turn) &&
    after.fullmoveNumber == (if before.turn == Black then before.fullmoveNumber + 1 else before.fullmoveNumber)
  }
}
