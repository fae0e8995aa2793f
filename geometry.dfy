/**
 * Screen geometry of the board: the 400-pixel board is centred in the
 * 800x600 window and drawn with White at the bottom, so rank 7 is the top
 * row of squares. A square index is `rank * 8 + file`.
 */
module Geometry {
  import opened Wrappers

  const WINDOW_WIDTH := 800
  const WINDOW_HEIGHT := 600
  const BOARD_SIZE := 400
  const SQUARE_SIZE := 50          // BOARD_SIZE / 8
  const BOARD_X := 200             // (WINDOW_WIDTH - BOARD_SIZE) / 2, the board centred
  const BOARD_Y := 100             // (WINDOW_HEIGHT - BOARD_SIZE) / 2

  predicate IsSquare(s: int)
  {
    0 <= s < 64
  }

  /** `chess.square(file, rank)`. */
  function SquareOf(file: int, rank: int): int
  {
    rank * 8 + file
  }

  /** `chess.square_file`. */
  function FileOf(s: int): (file: int)
    requires IsSquare(s)
    ensures 0 <= file < 8
  {
    s % 8
  }

  /** `chess.square_rank`. */
  function RankOf(s: int): (rank: int)
    requires IsSquare(s)
    ensures 0 <= rank < 8
    ensures SquareOf(FileOf(s), rank) == s
  {
    s / 8
  }

  /** The pixel rectangle the board occupies. */
  predicate OnBoard(x: int, y: int)
  {
    BOARD_X <= x < BOARD_X + BOARD_SIZE && BOARD_Y <= y < BOARD_Y + BOARD_SIZE
  }

  /** `get_square_at_pos`: the square under a pixel, or None off the board. */
  function SquareAt(x: int, y: int): (r: Option<int>)
    ensures r.Some? <==> OnBoard(x, y)
    ensures r.Some? ==> IsSquare(r.value)
  {
    if OnBoard(x, y) then
      RowOrColumn(x - BOARD_X);
      RowOrColumn(y - BOARD_Y);
      var file := (x - BOARD_X) / SQUARE_SIZE;
      var rank := 7 - (y - BOARD_Y) / SQUARE_SIZE;
      Some(SquareOf(file, rank))
    else
      None
  }

  /** Top-left pixel of the square at (file, rank), as `draw_board` places it. */
  function CellOrigin(file: int, rank: int): (o: (int, int))
    ensures 0 <= file < 8 && 0 <= rank < 8 ==> OnBoard(o.0, o.1)
  {
    (BOARD_X + file * SQUARE_SIZE, BOARD_Y + (7 - rank) * SQUARE_SIZE)
  }

  /** Top-left pixel of square `s`, as `draw_pieces` places its piece. */
  function DrawOrigin(s: int): (o: (int, int))
    requires IsSquare(s)
    ensures OnBoard(o.0, o.1)
  {
    CellOrigin(FileOf(s), RankOf(s))
  }

  /** The pixel lies in the square-sized cell drawn for `s`. */
  predicate InCell(x: int, y: int, s: int)
    requires IsSquare(s)
  {
    var o := DrawOrigin(s);
    o.0 <= x < o.0 + SQUARE_SIZE && o.1 <= y < o.1 + SQUARE_SIZE
  }

  /** A pixel offset into the board falls in one of the eight rows or columns. */
  lemma RowOrColumn(a: int)
    requires 0 <= a < 400
    ensures 0 <= a / 50 < 8
  {
  }

  lemma DivBy50(a: int, q: int)
    requires 50 * q <= a < 50 * q + 50
    ensures a / 50 == q
  {
  }

  /** `SquareAt` on the board, with the layout constants worked out. */
  lemma SquareAtFormula(x: int, y: int)
    requires OnBoard(x, y)
    ensures 200 <= x < 600 && 100 <= y < 500
    ensures SquareAt(x, y) == Some(8 * (7 - (y - 100) / 50) + (x - 200) / 50)
  {
  }

  /** `DrawOrigin`, with the layout constants worked out. */
  lemma DrawOriginFormula(s: int)
    requires IsSquare(s)
    ensures DrawOrigin(s) == (200 + 50 * (s % 8), 100 + 50 * (7 - s / 8))
  {
  }

  lemma SquareAtInCell(x: int, y: int)
    requires OnBoard(x, y)
    ensures IsSquare(SquareAt(x, y).value) && InCell(x, y, SquareAt(x, y).value)
  {
    SquareAtFormula(x, y);
    var file := (x - 200) / 50;
    var row := (y - 100) / 50;
    RowOrColumn(x - 200);
    RowOrColumn(y - 100);
    var s := 8 * (7 - row) + file;
    assert s % 8 == file && s / 8 == 7 - row;
    DrawOriginFormula(s);
  }

  lemma CellInSquareAt(x: int, y: int, s: int)
    requires IsSquare(s) && InCell(x, y, s)
    ensures SquareAt(x, y) == Some(s)
  {
    DrawOriginFormula(s);
    var file, rank := s % 8, s / 8;
    assert 200 + 50 * file <= x < 200 + 50 * file + 50;
    assert 100 + 50 * (7 - rank) <= y < 100 + 50 * (7 - rank) + 50;
    DivBy50(x - 200, file);
    DivBy50(y - 100, 7 - rank);
    SquareAtFormula(x, y);
  }

  /**
   * Clicking and drawing agree: a pixel maps to square `s` exactly when it
   * lies in the cell where `s` is drawn.
   */
  lemma SquareAtIsCell(x: int, y: int, s: int)
    ensures SquareAt(x, y) == Some(s) <==> IsSquare(s) && InCell(x, y, s)
  {
    if SquareAt(x, y) == Some(s) {
      SquareAtInCell(x, y);
    }
    if IsSquare(s) && InCell(x, y, s) {
      CellInSquareAt(x, y, s);
    }
  }

  /** The top-left pixel where a square is drawn is read back as that square. */
  lemma DrawOriginRoundTrip(s: int)
    requires IsSquare(s)
    ensures SquareAt(DrawOrigin(s).0, DrawOrigin(s).1) == Some(s)
  {
    SquareAtIsCell(DrawOrigin(s).0, DrawOrigin(s).1, s);
  }

  /** `draw_board` (by file and rank) and `draw_pieces` (by square) place squares alike. */
  lemma BoardAndPiecesAgree(file: int, rank: int)
    requires 0 <= file < 8 && 0 <= rank < 8
    ensures IsSquare(SquareOf(file, rank))
    ensures DrawOrigin(SquareOf(file, rank)) == CellOrigin(file, rank)
  {
    var s := SquareOf(file, rank);
    assert s % 8 == file && s / 8 == rank;
  }
}
