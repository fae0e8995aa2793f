/**
 * The bookkeeping of one match as pure functions over a snapshot of the
 * game's fields: the turn clock (`update_timer`), the state update after a
 * push (`make_move`), the left-click selection machine of the event loop,
 * the AI's guard and fallback (`ai_move`) and `reset_game`. The class in
 * module Chess is proved to update its fields exactly as these functions
 * say; the properties of the game are lemmas here.
 */
module Match {
  import opened Wrappers
  import opened Rules
  import Geometry
  import Audio

  /** Each side's allowance: 180 seconds, held in milliseconds. */
  const START_TIME := 180_000

  /** The mouse button that selects and moves (pygame's button 1). */
  const LEFT_BUTTON := 1

  /** `winner`: None, "White", "Black" or "Draw". */
  datatype Outcome = Undecided | Won(side: Side) | Drawn

  /** The fields of `ChessGame` that the bookkeeping reads and writes. */
  datatype Game = Game(
    board: Position,
    selectedSquare: Option<int>,
    validMoves: seq<int>,
    gameOver: bool,
    winner: Outcome,
    aiEnabled: bool,
    showHelp: bool,
    gameStarted: bool,
    whiteTime: int,
    blackTime: int,
    lastTick: Option<int>)

  /**
   * The effect of one operation: the new fields, the sounds asked for in
   * order, the move pushed (if any) and whether an AI turn is started.
   */
  datatype Step = Step(next: Game, sounds: seq<Audio.Sound>, played: Option<Move>, startAi: bool)

  function TimeOf(g: Game, side: Side): int
  {
    if side == White then g.whiteTime else g.blackTime
  }

  /** A countdown that has run out reads zero. */
  function Clamp(t: int): int
  {
    if t <= 0 then 0 else t
  }

  /**
   * What every reachable state keeps: a winner exactly when the game is
   * over, a last tick exactly once the clock has started, clocks never
   * negative, and both clocks still running while the game goes on.
   */
  predicate Wellformed(g: Game)
  {
    (g.gameOver <==> g.winner != Undecided) &&
    (g.gameStarted <==> g.lastTick.Some?) &&
    0 <= g.whiteTime && 0 <= g.blackTime &&
    (!g.gameOver ==> 0 < g.whiteTime && 0 < g.blackTime)
  }

  /** Neither clock above its starting allowance. */
  predicate ClocksInRange(g: Game)
  {
    g.whiteTime <= START_TIME && g.blackTime <= START_TIME
  }

  /**
   * A selection is a square holding a piece of the side to move, together
   * with exactly the destinations of its legal moves; no selection means no
   * highlighted destinations.
   */
  predicate SelectionValid(g: Game)
  {
    match g.selectedSquare
    case None => g.validMoves == []
    case Some(s) =>
      Geometry.IsSquare(s) && s in g.board.pieces && g.board.pieces[s].color == g.board.turn &&
      g.validMoves == Destinations(g.board.legalMoves, s)
  }

  /** A selected square still holds a piece (the selection machine looks at it). */
  predicate SelectedPieceExists(g: Game)
  {
    g.selectedSquare.Some? ==> g.selectedSquare.value in g.board.pieces
  }

  /** Timestamps do not run backwards from the last tick. */
  predicate MonotoneFrom(g: Game, now: int)
  {
    g.lastTick.None? || g.lastTick.value <= now
  }

  /**
   * The state `__init__` and `reset_game` establish, with the given board
   * and the two switches the reset keeps.
   */
  function Fresh(board: Position, aiEnabled: bool, showHelp: bool): (g: Game)
    ensures g.board == board && g.aiEnabled == aiEnabled && g.showHelp == showHelp
    ensures Wellformed(g) && ClocksInRange(g) && SelectionValid(g)
    ensures g.selectedSquare.None? && !g.gameOver && !g.gameStarted
    ensures g.whiteTime == START_TIME && g.blackTime == START_TIME
  {
    Game(board, None, [], false, Undecided, aiEnabled, showHelp, false, START_TIME, START_TIME, None)
  }

  /** The state right after `__init__`: AI on, help hidden. */
  function Initial(board: Position): Game
  {
    Fresh(board, true, false)
  }

  // ---------------------------------------------------------------------
  // get_valid_moves
  // ---------------------------------------------------------------------

  /** The to-squares of the legal moves leaving `square`, in the library's order. */
  function Destinations(legal: seq<Move>, square: int): (r: seq<int>)
    ensures |r| <= |legal|
  {
    if legal == [] then []
    else
      var last := legal[|legal| - 1];
      Destinations(legal[..|legal| - 1], square) + (if last.fromSquare == square then [last.toSquare] else [])
  }

  /** A destination is listed exactly when some legal move goes there from the square. */
  lemma {:induction false} DestinationsSpec(legal: seq<Move>, square: int, t: int)
    ensures t in Destinations(legal, square) <==> exists m :: m in legal && m.fromSquare == square && m.toSquare == t
  {
    if legal != [] {
      var init := legal[..|legal| - 1];
      var last := legal[|legal| - 1];
      DestinationsSpec(init, square, t);
      assert legal == init + [last];
      if exists m :: m in legal && m.fromSquare == square && m.toSquare == t {
        var m :| m in legal && m.fromSquare == square && m.toSquare == t;
        if m != last {
          assert m in init;
        }
      }
    }
  }

  // ---------------------------------------------------------------------
  // update_timer
  // ---------------------------------------------------------------------

  /**
   * `update_timer` at time `now`: nothing before the clock has started or
   * after the game is over; the first call only records the time;
   * afterwards the time since the last tick is charged to the side to move
   * alone, and a clock that runs out reads zero and loses the game.
   */
  function Tick(g: Game, now: int): (s: Step)
    ensures s.played == None && !s.startAi
    ensures s.next.board == g.board && s.next.selectedSquare == g.selectedSquare && s.next.validMoves == g.validMoves
    ensures s.next.aiEnabled == g.aiEnabled && s.next.showHelp == g.showHelp && s.next.gameStarted == g.gameStarted
    ensures !g.gameStarted || g.gameOver ==> s.next == g && s.sounds == []
    ensures g.gameStarted && !g.gameOver && g.lastTick.None? ==> s.next == g.(lastTick := Some(now)) && s.sounds == []
    ensures g.gameStarted && !g.gameOver && g.lastTick.Some? ==>
      var mover := g.board.turn;
      var left := TimeOf(g, mover) - (now - g.lastTick.value);
      && s.next.lastTick == Some(now)
      && TimeOf(s.next, Opponent(mover)) == TimeOf(g, Opponent(mover))
      && TimeOf(s.next, mover) == Clamp(left)
      && (s.next.gameOver <==> left <= 0)
      && s.next.winner == (if left <= 0 then Won(Opponent(mover)) else g.winner)
      && s.sounds == (if left <= 0 then [Audio.Timeout] else [])
  {
    if !g.gameStarted || g.gameOver then Step(g, [], None, false)
    else if g.lastTick.None? then Step(g.(lastTick := Some(now)), [], None, false)
    else
      var elapsed := now - g.lastTick.value;
      var ticked := g.(lastTick := Some(now));
      if g.board.turn == White then
        var t := g.whiteTime - elapsed;
        if t <= 0 then Step(ticked.(whiteTime := 0, gameOver := true, winner := Won(Black)), [Audio.Timeout], None, false)
        else Step(ticked.(whiteTime := t), [], None, false)
      else
        var t := g.blackTime - elapsed;
        if t <= 0 then Step(ticked.(blackTime := 0, gameOver := true, winner := Won(White)), [Audio.Timeout], None, false)
        else Step(ticked.(blackTime := t), [], None, false)
  }

  /** A tick keeps the state well formed, and with a clock that does not run backwards keeps both clocks in range. */
  lemma TickPreserves(g: Game, now: int)
    requires Wellformed(g)
    ensures Wellformed(Tick(g, now).next)
    ensures ClocksInRange(g) && MonotoneFrom(g, now) ==> ClocksInRange(Tick(g, now).next)
  {
  }

  /** The two clocks lose together exactly what the side to move was charged, never more than the elapsed time. */
  lemma TickChargesOnlyElapsed(g: Game, now: int)
    requires Wellformed(g) && g.gameStarted && !g.gameOver && g.lastTick.Some? && MonotoneFrom(g, now)
    ensures var n := Tick(g, now).next;
      n.whiteTime + n.blackTime == g.whiteTime + g.blackTime - (TimeOf(g, g.board.turn) - TimeOf(n, g.board.turn))
    ensures var n := Tick(g, now).next;
      var elapsed := now - g.lastTick.value;
      g.whiteTime + g.blackTime - elapsed <= n.whiteTime + n.blackTime <= g.whiteTime + g.blackTime
  {
  }

  /** The ticks at the given times, in order. */
  function RunTicks(g: Game, nows: seq<int>): Game
    decreases |nows|
  {
    if nows == [] then g else RunTicks(Tick(g, nows[0]).next, nows[1..])
  }

  /** The times never go backwards, starting from `t0`. */
  predicate Monotone(t0: int, nows: seq<int>)
    decreases |nows|
  {
    nows == [] || (t0 <= nows[0] && Monotone(nows[0], nows[1..]))
  }

  function LastTime(t0: int, nows: seq<int>): int
  {
    if nows == [] then t0 else nows[|nows| - 1]
  }

  lemma {:induction false} LastTimeAtLeast(t0: int, nows: seq<int>)
    requires Monotone(t0, nows)
    ensures t0 <= LastTime(t0, nows)
    decreases |nows|
  {
    if nows != [] {
      LastTimeAtLeast(nows[0], nows[1..]);
      assert LastTime(nows[0], nows[1..]) == LastTime(t0, nows);
    }
  }

  lemma {:induction false} RunTicksIdle(g: Game, nows: seq<int>)
    requires g.gameOver
    ensures RunTicks(g, nows) == g
    decreases |nows|
  {
    if nows != [] {
      RunTicksIdle(Tick(g, nows[0]).next, nows[1..]);
    }
  }

  /**
   * Over any run of ticks with no move in between, the side not on move
   * loses nothing and the side on move is charged the whole time since the
   * last tick, down to zero, at which point it has lost on time.
   */
  lemma {:induction false} RunTicksCharge(g: Game, nows: seq<int>)
    requires Wellformed(g) && g.gameStarted && !g.gameOver && g.lastTick.Some?
    requires Monotone(g.lastTick.value, nows)
    ensures var r := RunTicks(g, nows);
      var mover := g.board.turn;
      var left := TimeOf(g, mover) - (LastTime(g.lastTick.value, nows) - g.lastTick.value);
      && r.board == g.board
      && TimeOf(r, Opponent(mover)) == TimeOf(g, Opponent(mover))
      && TimeOf(r, mover) == Clamp(left)
      && (r.gameOver <==> left <= 0)
    decreases |nows|
  {
    if nows != [] {
      var t0 := g.lastTick.value;
      var g1 := Tick(g, nows[0]).next;
      assert LastTime(nows[0], nows[1..]) == LastTime(t0, nows);
      LastTimeAtLeast(nows[0], nows[1..]);
      if g1.gameOver {
        RunTicksIdle(g1, nows[1..]);
      } else {
        RunTicksCharge(g1, nows[1..]);
      }
    }
  }

  // ---------------------------------------------------------------------
  // make_move
  // ---------------------------------------------------------------------

  /** The one sound a push makes: check wins over capture, capture over a quiet move. */
  function MoveSound(isCheck: bool, isCapture: bool): (r: Audio.Sound)
    ensures r == Audio.Check <==> isCheck
    ensures r == Audio.Capture <==> !isCheck && isCapture
    ensures r == Audio.Move <==> !isCheck && !isCapture
  {
    if isCheck then Audio.Check else if isCapture then Audio.Capture else Audio.Move
  }

  /**
   * The push itself: the board becomes `after`, and the clock starts on the
   * first push that leaves the full-move number above one.
   */
  function Pushed(g: Game, after: Position, now: int): (n: Game)
    ensures n.board == after
    ensures n.gameStarted <==> g.gameStarted || after.fullmoveNumber > 1
    ensures n.lastTick == (if !g.gameStarted && after.fullmoveNumber > 1 then Some(now) else g.lastTick)
    ensures n.(board := g.board, gameStarted := g.gameStarted, lastTick := g.lastTick) == g
  {
    var starts := !g.gameStarted && after.fullmoveNumber > 1;
    g.(board := after,
       gameStarted := if starts then true else g.gameStarted,
       lastTick := if starts then Some(now) else g.lastTick)
  }

  /**
   * The verdict on the board just pushed: checkmate ends the game for the
   * side that is not to move, stalemate or insufficient material ends it
   * drawn; otherwise nothing changes.
   */
  function Concluded(g: Game): (n: Game)
    ensures n.gameOver <==> g.gameOver || g.board.isCheckmate || g.board.isStalemate || g.board.isInsufficientMaterial
    ensures g.board.isCheckmate ==> n.winner == Won(Opponent(g.board.turn))
    ensures !g.board.isCheckmate && (g.board.isStalemate || g.board.isInsufficientMaterial) ==> n.winner == Drawn
    ensures n.(gameOver := g.gameOver, winner := g.winner) == g
    ensures !g.board.isCheckmate && !g.board.isStalemate && !g.board.isInsufficientMaterial ==> n == g
  {
    if g.board.isCheckmate then
      g.(gameOver := true, winner := if g.board.turn == Black then Won(White) else Won(Black))
    else if g.board.isStalemate || g.board.isInsufficientMaterial then
      g.(gameOver := true, winner := Drawn)
    else
      g
  }

  /** The sound that follows the move sound when the push ends the game. */
  function EndSounds(after: Position): (r: seq<Audio.Sound>)
    ensures r == [] <==> !after.isCheckmate && !after.isStalemate && !after.isInsufficientMaterial
    ensures after.isCheckmate ==> r == [Audio.Checkmate]
    ensures !after.isCheckmate && r != [] ==> r == [Audio.Stalemate]
  {
    if after.isCheckmate then [Audio.Checkmate]
    else if after.isStalemate || after.isInsufficientMaterial then [Audio.Stalemate]
    else []
  }

  /**
   * `make_move`: the board becomes `after` (the library's push of `move`);
   * the clock starts on the first push that leaves the full-move number
   * above one; one sound tells check, else capture, else a quiet move;
   * checkmate ends the game for the side the new position does not have to
   * move, stalemate or insufficient material ends it drawn. Neither legality
   * nor `game_over` is checked here.
   */
  function Apply(g: Game, move: Move, after: Position, now: int): (s: Step)
    ensures s.played == Some(move) && !s.startAi
    ensures s.next.board == after
    ensures s.next.selectedSquare == g.selectedSquare && s.next.validMoves == g.validMoves
    ensures s.next.aiEnabled == g.aiEnabled && s.next.showHelp == g.showHelp
    ensures s.next.whiteTime == g.whiteTime && s.next.blackTime == g.blackTime
    ensures s.next.gameStarted <==> g.gameStarted || after.fullmoveNumber > 1
    ensures s.next.lastTick == if !g.gameStarted && after.fullmoveNumber > 1 then Some(now) else g.lastTick
    ensures 1 <= |s.sounds| <= 2 && s.sounds[0] == MoveSound(after.isCheck, move in g.board.captures)
    ensures after.isCheckmate ==>
      s.next.gameOver && s.next.winner == Won(Opponent(after.turn)) && s.sounds[1..] == [Audio.Checkmate]
    ensures !after.isCheckmate && (after.isStalemate || after.isInsufficientMaterial) ==>
      s.next.gameOver && s.next.winner == Drawn && s.sounds[1..] == [Audio.Stalemate]
    ensures !after.isCheckmate && !after.isStalemate && !after.isInsufficientMaterial ==>
      s.next.gameOver == g.gameOver && s.next.winner == g.winner && |s.sounds| == 1
  {
    var sound := MoveSound(after.isCheck, move in g.board.captures);
    Step(Concluded(Pushed(g, after, now)), [sound] + EndSounds(after), Some(move), false)
  }

  /** Checkmate is credited to the side that made the mating move. */
  lemma MateCreditsMover(g: Game, move: Move, after: Position, now: int)
    requires Pushes(g.board, move, after) && after.isCheckmate
    ensures Apply(g, move, after, now).next.winner == Won(g.board.turn)
  {
  }

  /** A push keeps the state well formed and never restarts or stops the clock. */
  lemma ApplyPreserves(g: Game, move: Move, after: Position, now: int)
    requires Wellformed(g)
    ensures Wellformed(Apply(g, move, after, now).next)
    ensures ClocksInRange(g) ==> ClocksInRange(Apply(g, move, after, now).next)
    ensures g.gameStarted ==> Apply(g, move, after, now).next.lastTick == g.lastTick
    ensures g.gameOver ==> Apply(g, move, after, now).next.gameOver
  {
  }

  /**
   * From a fresh game on a starting board, White's first push leaves the
   * clock stopped and Black's reply starts it at the time of that reply.
   */
  lemma ClockStartsAfterBlacksFirstMove(start: Position, m1: Move, p1: Position, t1: int, m2: Move, p2: Position, t2: int)
    requires start.turn == White && start.fullmoveNumber == 1
    requires Pushes(start, m1, p1) && Pushes(p1, m2, p2)
    ensures var g1 := Apply(Initial(start), m1, p1, t1).next;
      && !g1.gameStarted && g1.lastTick.None?
      && Apply(g1, m2, p2, t2).next.gameStarted
      && Apply(g1, m2, p2, t2).next.lastTick == Some(t2)
  {
  }

  // ---------------------------------------------------------------------
  // Left clicks in the event loop
  // ---------------------------------------------------------------------

  /**
   * The move a second click asks for: from the selected square to the
   * clicked one, promoting to a queen when a pawn of the side to move
   * reaches the far rank.
   */
  function MoveFor(board: Position, from: int, to: int): (m: Move)
    requires from in board.pieces
    ensures m.fromSquare == from && m.toSquare == to
    ensures m.promotion.Some? <==>
      board.pieces[from].pieceType == Pawn &&
      ((to >= 56 && board.turn == White) || (to <= 7 && board.turn == Black))
    ensures Geometry.IsSquare(to) ==>
      (m.promotion.Some? <==>
         board.pieces[from].pieceType == Pawn && Geometry.RankOf(to) == (if board.turn == White then 7 else 0))
    ensures m.promotion.Some? ==> m.promotion.value == Queen
  {
    var promote := board.pieces[from].pieceType == Pawn &&
      ((to >= 56 && board.turn == White) || (to <= 7 && board.turn == Black));
    Move(from, to, if promote then Some(Queen) else None)
  }

  /**
   * A mouse-button press at pixel (x, y). `push` is what the library's push
   * of a move onto the current board yields.
   */
  function Click(g: Game, x: int, y: int, button: int, push: Move -> Position, now: int): (s: Step)
    requires SelectedPieceExists(g)
    ensures s.next.aiEnabled == g.aiEnabled && s.next.showHelp == g.showHelp
    ensures s.next.selectedSquare != g.selectedSquare ==>
      s.next.selectedSquare.None? || (g.selectedSquare.None? && s.next.selectedSquare == Geometry.SquareAt(x, y))
    ensures s.played.Some? ==>
      g.selectedSquare == Some(s.played.value.fromSquare) && s.played.value.toSquare in g.validMoves
    ensures s.startAi ==> s.played.Some? && !s.next.gameOver && s.next.board.turn == Black
  {
    var square := Geometry.SquareAt(x, y);
    if g.gameOver || g.showHelp || button != LEFT_BUTTON || square.None? then
      Step(g, [], None, false)
    else if g.selectedSquare.None? then
      var piece := PieceAt(g.board, square.value);
      if piece.Some? && piece.value.color == g.board.turn then
        Step(g.(selectedSquare := square, validMoves := Destinations(g.board.legalMoves, square.value)),
             [Audio.Select], None, false)
      else
        Step(g, [], None, false)
    else if square.value in g.validMoves then
      var move := MoveFor(g.board, g.selectedSquare.value, square.value);
      var applied := Apply(g, move, push(move), now);
      var n := applied.next;
      Step(n.(selectedSquare := None, validMoves := []), applied.sounds, Some(move),
           n.aiEnabled && !n.gameOver && n.board.turn == Black)
    else
      Step(g.(selectedSquare := None, validMoves := []), [], None, false)
  }

  /** Clicks while the game is over or help is shown, other buttons, and clicks off the board change nothing. */
  lemma ClickIgnored(g: Game, x: int, y: int, button: int, push: Move -> Position, now: int)
    requires SelectedPieceExists(g)
    requires g.gameOver || g.showHelp || button != LEFT_BUTTON || !Geometry.OnBoard(x, y)
    ensures Click(g, x, y, button, push, now) == Step(g, [], None, false)
  {
  }

  /**
   * With nothing selected, a click selects its square exactly when that
   * square holds a piece of the side to move; the highlighted squares are
   * then exactly the destinations of its legal moves. Otherwise nothing
   * changes.
   */
  lemma ClickSelects(g: Game, x: int, y: int, push: Move -> Position, now: int, t: int)
    requires g.selectedSquare.None? && !g.gameOver && !g.showHelp && Geometry.OnBoard(x, y)
    ensures var s := Click(g, x, y, LEFT_BUTTON, push, now);
      var sq := Geometry.SquareAt(x, y).value;
      var own := PieceAt(g.board, sq).Some? && PieceAt(g.board, sq).value.color == g.board.turn;
      && s.played == None && !s.startAi
      && (s.next.selectedSquare == Some(sq) <==> own)
      && (!own ==> s == Step(g, [], None, false))
      && (own ==> s.next == g.(selectedSquare := Some(sq), validMoves := Destinations(g.board.legalMoves, sq)))
      && (own ==> s.next.board == g.board && s.sounds == [Audio.Select] &&
                  (t in s.next.validMoves <==> exists m :: m in g.board.legalMoves && m.fromSquare == sq && m.toSquare == t))
  {
    DestinationsSpec(g.board.legalMoves, Geometry.SquareAt(x, y).value, t);
  }

  /**
   * With a square selected, an on-board click always clears the selection;
   * it pushes a move exactly when the clicked square is highlighted, that
   * move goes from the selected square to the clicked one along a legal
   * move, and the turn passes to the other side.
   */
  lemma ClickSecond(g: Game, x: int, y: int, push: Move -> Position, now: int)
    requires SelectionValid(g) && g.selectedSquare.Some?
    requires !g.gameOver && !g.showHelp && Geometry.OnBoard(x, y)
    requires forall m :: Pushes(g.board, m, push(m))
    ensures var s := Click(g, x, y, LEFT_BUTTON, push, now);
      var sq := Geometry.SquareAt(x, y).value;
      var from := g.selectedSquare.value;
      && s.next.selectedSquare.None? && s.next.validMoves == []
      && (s.played.Some? <==> sq in g.validMoves)
      && (s.played.None? ==> s == Step(g.(selectedSquare := None, validMoves := []), [], None, false))
      && (s.played.Some? ==>
            var m := MoveFor(g.board, from, sq);
            var applied := Apply(g, m, push(m), now);
            s.next == applied.next.(selectedSquare := None, validMoves := []) && s.sounds == applied.sounds)
      && (s.played.Some? ==>
            s.played.value == MoveFor(g.board, from, sq) &&
            (exists m :: m in g.board.legalMoves && m.fromSquare == from && m.toSquare == sq) &&
            s.next.board == push(s.played.value) &&
            s.next.board.turn == Opponent(g.board.turn))
      && (s.startAi <==> s.played.Some? && s.next.aiEnabled && !s.next.gameOver && s.next.board.turn == Black)
  {
    var sq := Geometry.SquareAt(x, y).value;
    DestinationsSpec(g.board.legalMoves, g.selectedSquare.value, sq);
  }

  /** Clicks keep the selection consistent with the board and keep the state well formed. */
  lemma ClickPreserves(g: Game, x: int, y: int, button: int, push: Move -> Position, now: int)
    requires SelectionValid(g) && Wellformed(g)
    ensures SelectedPieceExists(g)
    ensures SelectionValid(Click(g, x, y, button, push, now).next)
    ensures Wellformed(Click(g, x, y, button, push, now).next)
    ensures ClocksInRange(g) ==> ClocksInRange(Click(g, x, y, button, push, now).next)
  {
    var square := Geometry.SquareAt(x, y);
    if !g.gameOver && !g.showHelp && button == LEFT_BUTTON && square.Some? {
      if g.selectedSquare.Some? && square.value in g.validMoves {
        var move := MoveFor(g.board, g.selectedSquare.value, square.value);
        ApplyPreserves(g, move, push(move), now);
      }
    }
  }

  // ---------------------------------------------------------------------
  // ai_move
  // ---------------------------------------------------------------------

  /**
   * `ai_move`: acts only when the AI is on, the game is not over and Black
   * is to move. An engine suggestion (None when the engine is missing,
   * fails or names no move) is played if it is legal; otherwise the legal
   * move at index `pick` (the random choice) is played, if there is any.
   */
  function AiTurn(g: Game, suggestion: Option<Move>, pick: nat, push: Move -> Position, now: int): (s: Step)
    requires |g.board.legalMoves| == 0 || pick < |g.board.legalMoves|
    ensures !s.startAi
    ensures s.played.Some? ==> s.played.value in g.board.legalMoves
  {
    if !g.aiEnabled || g.gameOver || g.board.turn == White then
      Step(g, [], None, false)
    else if suggestion.Some? && suggestion.value in g.board.legalMoves then
      Apply(g, suggestion.value, push(suggestion.value), now)
    else if |g.board.legalMoves| > 0 then
      var move := g.board.legalMoves[pick];
      Apply(g, move, push(move), now)
    else
      Step(g, [], None, false)
  }

  /**
   * The AI does nothing unless it is on, the game goes on and Black is to
   * move; then a legal suggestion is played as is, and otherwise the
   * random legal move, when one exists.
   */
  lemma AiTurnChoice(g: Game, suggestion: Option<Move>, pick: nat, push: Move -> Position, now: int)
    requires |g.board.legalMoves| == 0 || pick < |g.board.legalMoves|
    ensures var s := AiTurn(g, suggestion, pick, push, now);
      && (!g.aiEnabled || g.gameOver || g.board.turn == White ==> s == Step(g, [], None, false))
      && (g.aiEnabled && !g.gameOver && g.board.turn == Black ==>
            && (suggestion.Some? && suggestion.value in g.board.legalMoves ==> s.played == suggestion)
            && (!(suggestion.Some? && suggestion.value in g.board.legalMoves) ==>
                  s.played == (if |g.board.legalMoves| > 0 then Some(g.board.legalMoves[pick]) else None))
            && (s.played.Some? ==> s.next.board == push(s.played.value)))
      && (s.played.Some? ==> s == Apply(g, s.played.value, push(s.played.value), now))
      && (s.played.None? ==> s == Step(g, [], None, false))
  {
  }

  /**
   * An AI turn keeps the state well formed and the clocks in range; taken
   * with nothing selected, as after the click that starts it, it keeps the
   * selection consistent too.
   */
  lemma AiTurnPreserves(g: Game, suggestion: Option<Move>, pick: nat, push: Move -> Position, now: int)
    requires |g.board.legalMoves| == 0 || pick < |g.board.legalMoves|
    requires Wellformed(g)
    ensures Wellformed(AiTurn(g, suggestion, pick, push, now).next)
    ensures ClocksInRange(g) ==> ClocksInRange(AiTurn(g, suggestion, pick, push, now).next)
    ensures g.selectedSquare.None? && SelectionValid(g) ==> SelectionValid(AiTurn(g, suggestion, pick, push, now).next)
  {
    var s := AiTurn(g, suggestion, pick, push, now);
    if s.played.Some? {
      ApplyPreserves(g, s.played.value, push(s.played.value), now);
    }
  }

  // ---------------------------------------------------------------------
  // reset_game
  // ---------------------------------------------------------------------

  /** `reset_game`: a new board and every piece of match state back to its start together. */
  function Reset(g: Game, start: Position): (s: Step)
    ensures s.next.board == start && s.sounds == [Audio.Select] && s.played == None && !s.startAi
    ensures s.next.selectedSquare.None? && s.next.validMoves == []
    ensures !s.next.gameOver && s.next.winner == Undecided
    ensures s.next.whiteTime == START_TIME && s.next.blackTime == START_TIME
    ensures s.next.lastTick.None? && !s.next.gameStarted
    ensures s.next.aiEnabled == g.aiEnabled && s.next.showHelp == g.showHelp
  {
    Step(Fresh(start, g.aiEnabled, g.showHelp), [Audio.Select], None, false)
  }

  /**
   * A reset forgets the whole history: two games with the same switches
   * reset to the same state, and with the initial switches that state is
   * the one the game starts in.
   */
  lemma ResetForgetsHistory(g1: Game, g2: Game, start: Position)
    requires g1.aiEnabled == g2.aiEnabled && g1.showHelp == g2.showHelp
    ensures Reset(g1, start).next == Reset(g2, start).next
    ensures g1.aiEnabled && !g1.showHelp ==> Reset(g1, start).next == Initial(start)
    ensures Wellformed(Reset(g1, start).next) && ClocksInRange(Reset(g1, start).next) && SelectionValid(Reset(g1, start).next)
  {
  }

  // ---------------------------------------------------------------------
  // The end of the game
  // ---------------------------------------------------------------------

  /**
   * Once the game is over, the clock, clicks and the AI leave the state as
   * it is: only a reset starts play again.
   */
  lemma GameOverIsAbsorbing(g: Game, now: int, x: int, y: int, button: int,
                            suggestion: Option<Move>, pick: nat, push: Move -> Position)
    requires g.gameOver && SelectedPieceExists(g)
    requires |g.board.legalMoves| == 0 || pick < |g.board.legalMoves|
    ensures Tick(g, now).next == g
    ensures Click(g, x, y, button, push, now).next == g
    ensures AiTurn(g, suggestion, pick, push, now).next == g
  {
  }
}
