# Chess game bookkeeping, in Dafny

A model of the state that `ChessGame` (chess.py) keeps around the
python-chess rules library in a small pygame chess program:

- the mapping between mouse pixels and board squares (`get_square_at_pos`,
  and the placement used by `draw_board` and `draw_pieces`);
- the `MM:SS` display of a clock (`format_time`);
- the two 180-second countdowns charged to the side to move (`update_timer`);
- the click-to-select, click-to-move machine of the event loop, with the
  legal destinations of a selected piece (`get_valid_moves`) and automatic
  queen promotion;
- the status updates after a push (`make_move`), the AI's guard and random
  fallback (`ai_move`), and `reset_game`.

Modules:

- `Wrappers`: `Option`, standing for Python's `None`.
- `Rules`: the rules library as an opaque collaborator. A `Position` carries
  the side to move, `piece_at` (a map), the legal moves in the library's
  order, the set of capturing moves, `fullmove_number`, and the check,
  checkmate, stalemate and insufficient-material flags. `Pushes` states the
  two facts about `push` the game relies on: the turn passes to the other
  side, and the full-move number goes up after Black moves.
- `Geometry`: pixel/square conversion.
- `ClockFace`: `format_time`, with an `MM:SS` reader as its inverse.
- `Audio`: the names of the sound effects. Playing a sound is modelled as the
  operation returning the names it would play, in order.
- `Match`: the fields of the game as a value (`Game`), each operation as a
  function from the old value to a `Step` (new value, sounds, pushed move,
  whether an AI turn is started), and the lemmas about them.
- `Chess`: class `ChessGame` with the real fields. Its methods update them
  step by step, as the source does. Each method is proved to produce exactly
  the `Match` function's new state.

Time is an integer count of milliseconds. A clock starts at 180 000 ms.
Wall-clock readings (`time.time()`) are a `now` parameter. The library's
push is a parameter too: `after` (the board after the push) for `MakeMove`,
and `push` (a function from a move to that board) for clicks and the AI.
The engine's suggestion is an `Option<Move>` parameter. `random.choice` is an
index `pick` into the legal moves.

Three points where the code does something a reader might not expect:

- `make_move` checks neither legality nor `game_over`. Those checks happen
  only at its call sites: the click guard, the `valid_moves` test, the AI
  guard and the AI's legality test. In the model, where `ai_move` is one
  atomic step, `Match.GameOverIsAbsorbing` shows that those call sites make a
  finished game absorbing. The source's AI thread breaks this (see "Left out").
- The clock starts on the first push after which the full-move number
  exceeds one. That is after Black's first move, not White's as the comment
  at chess.py:519 says (`Match.ClockStartsAfterBlacksFirstMove`).
- A click off the board leaves a pending selection untouched. Only an
  on-board second click clears it.

## Model

| member | source | states |
|---|---|---|
| `Geometry.SquareAt` | chess.py:454-473 | gives a square exactly when the pixel lies in the 400x400 board at (200,100); the square is in 0..63 |
| `Geometry.SquareAtIsCell` | chess.py:462-471 | a pixel maps to square s exactly when it lies in the 50x50 cell where s is drawn |
| `Geometry.DrawOriginRoundTrip` | chess.py:339-340 | the top-left pixel where a square's piece is drawn maps back to that square |
| `Geometry.DrawOrigin` | chess.py:335-340 | the drawing position of every square lies on the board |
| `Geometry.BoardAndPiecesAgree` | chess.py:289-293 | `draw_board` (by file and rank) and `draw_pieces` (by square) put each square at the same pixel |
| `Geometry.CellOrigin` | chess.py:292-293 | the top-left pixel `draw_board` gives every file and rank in 0..7 lies on the board |
| `Geometry.RankOf` | chess.py:336 | file and rank are in 0..7 and rebuild the square as rank*8+file |
| `ClockFace.WholeSeconds` | chess.py:422-423 | `int()` of the reading in seconds: truncation toward zero, so the whole seconds lie within one second of the reading, on the side of zero |
| `ClockFace.Fields` | chess.py:422-423 | seconds field in 0..59, minutes*60+seconds equals the whole seconds; for a non-negative clock, minutes ≥ 0 and the fields are the reading rounded down to a second |
| `ClockFace.FormatTime` | chess.py:420-424 | for every reading the display ends in a colon and two digits that spell the seconds field |
| `ClockFace.FormatTimeShape` | chess.py:420-424 | under 100 minutes the display is two digits, a colon, and two digits of seconds below 60 |
| `ClockFace.FormatTimeLength` | chess.py:424 | for a non-negative clock the display has five characters exactly when it is under 100 minutes |
| `ClockFace.FormatTimeRoundTrip` | chess.py:420-424 | reading the display back gives the clock's whole seconds |
| `ClockFace.ParseClockRoundTrip` | chess.py:420-424 | every `MM:SS` display is the one shown for the seconds it reads as |
| `ClockFace.ParseClock` | chess.py:424 | accepts exactly the `MM:SS` shape that the display has, with a value below 6000 seconds |
| `Match.Destinations` | chess.py:475-481 | no more destinations than legal moves |
| `Match.DestinationsSpec` | chess.py:475-481 | a square is a destination exactly when some legal move goes there from the given square |
| `Match.Fresh` | chess.py:31-52 | the initial and reset state: no selection, game not over or started, both clocks at 180 s; it is well formed, in range and has a consistent selection |
| `Match.Tick` | chess.py:426-452 | does nothing before the start or after the end; the first tick only records the time; later ticks charge the elapsed time to the side to move only, clamp at zero and on reaching zero end the game for the opponent with a timeout sound |
| `Match.TickPreserves` | chess.py:441-452 | a tick keeps clocks non-negative, positive while play goes on, and a winner exactly when over; with time not running backwards both clocks stay within [0, 180 s] |
| `Match.TickChargesOnlyElapsed` | chess.py:436-447 | the two clocks together lose exactly what the side to move lost, which is at most the elapsed time and never negative |
| `Match.RunTicksCharge` | chess.py:426-452 | over any run of ticks with no move between, the side not on move loses nothing and the side on move loses the total elapsed time, clamped at zero, losing on time exactly when it reaches zero |
| `Match.MoveSound` | chess.py:525-530 | the move sound is check exactly on check, capture exactly on a capture without check, and the plain move sound otherwise |
| `Match.Pushed` | chess.py:517-522 | the board becomes the pushed one; the clock is started exactly when it had not started and the full-move number exceeds one, and the last tick is then that time and otherwise kept; nothing else changes |
| `Match.Concluded` | chess.py:532-540 | the game is over exactly when it was or the new board is checkmate, stalemate or insufficient material; mate is won by the side not to move, the others are drawn; a board that ends nothing leaves the whole state as it was, and no verdict touches anything but `game_over` and `winner` |
| `Match.EndSounds` | chess.py:532-540 | no end sound exactly when the game does not end; checkmate sounds mate, stalemate or insufficient material sounds stalemate |
| `Match.Apply` | chess.py:511-540 | the board becomes the pushed one; the clock starts on the first push leaving fullmove > 1 and is never stopped; exactly one move sound, check before capture before quiet; checkmate ends the game for the side not to move, stalemate or insufficient material ends it drawn; selection and clocks untouched |
| `Match.MateCreditsMover` | chess.py:533-535 | under the library's push contract, checkmate is credited to the side that made the move |
| `Match.ApplyPreserves` | chess.py:511-540 | a push keeps the state well formed, the clocks in range, an existing last tick, and a finished game finished |
| `Match.ClockStartsAfterBlacksFirstMove` | chess.py:519-522 | from a fresh game, White's first move leaves the clock stopped and Black's reply starts it at that reply's time |
| `Match.MoveFor` | chess.py:592-599 | the move goes from the selected to the clicked square and promotes, always to a queen, exactly for a pawn reaching square ≥ 56 with White to move or ≤ 7 with Black to move, that is, the mover's last rank |
| `Match.Click` | chess.py:577-609 | a click keeps the AI and help switches; a selection only appears from none, on the clicked square, or is cleared; a pushed move goes from the selected square to a highlighted one; the AI starts only after a push that leaves the game going with Black to move |
| `Match.ClickIgnored` | chess.py:577-581 | clicks while the game is over or help is shown, other buttons and off-board clicks change nothing |
| `Match.ClickSelects` | chess.py:582-588 | with nothing selected, a click selects exactly a square holding a piece of the side to move, and the highlighted squares are exactly its legal destinations, with every other field unchanged; otherwise nothing changes |
| `Match.ClickSecond` | chess.py:589-609 | with a selection, an on-board click always clears it; a move is pushed exactly when the square is highlighted, along a legal from/to pair, and the turn passes; the AI is started exactly when it is on, the game goes on and Black is to move; a push leaves the state and sounds of `make_move` (`Match.Apply`) with the selection cleared, and no push changes only the selection |
| `Match.ClickPreserves` | chess.py:577-609 | clicks keep the selection consistent with the board and the state well formed and in range |
| `Match.AiTurn` | chess.py:483-509 | the AI only ever pushes a move from the current legal moves |
| `Match.AiTurnChoice` | chess.py:485-509 | nothing happens unless AI is on, the game goes on and Black is to move; then a legal engine suggestion is played, otherwise the randomly picked legal move if there is one; a played move has exactly the effect of `make_move` (`Match.Apply`), and with no move nothing changes |
| `Match.AiTurnPreserves` | chess.py:506-509 | an AI turn keeps the state well formed and in range, and keeps an empty selection consistent |
| `Match.Reset` | chess.py:542-553 | new board, no selection, clocks back to 180 s, not over, no winner, clock stopped with no last tick; AI and help switches kept |
| `Match.ResetForgetsHistory` | chess.py:542-553 | the reset state does not depend on the history, equals the initial state when the switches are as at start, and is well formed |
| `Match.GameOverIsAbsorbing` | chess.py:577 | once the game is over, ticks, clicks and the AI leave the state unchanged |
| `Chess.ChessGame.constructor` | chess.py:31-52 | the fields start as the initial state on the library's starting board |
| `Chess.ChessGame.GetValidMoves` | chess.py:475-481 | the filter loop returns exactly the destinations of the legal moves from the square, in the library's order |
| `Chess.ChessGame.UpdateTimer` | chess.py:426-452 | the fields and sounds after the update are those of `Match.Tick` |
| `Chess.ChessGame.MakeMove` | chess.py:511-540 | the fields and sounds after the push are those of `Match.Apply` |
| `Chess.ChessGame.StartClock` | chess.py:519-522 | on the board just pushed, the clock starts as `Match.Pushed` says and nothing else changes |
| `Chess.ChessGame.Conclude` | chess.py:532-540 | on the board just pushed, the verdict and end sound are those of `Match.Concluded` and `Match.EndSounds` |
| `Chess.ChessGame.ResetGame` | chess.py:542-553 | the fields and sound after the reset are those of `Match.Reset` |
| `Chess.ChessGame.Click` | chess.py:577-609 | the fields, sounds and AI start after a mouse press are those of `Match.Click` |
| `Chess.ChessGame.AiMove` | chess.py:483-509 | the fields and sounds after the AI's turn are those of `Match.AiTurn` |
| `Chess.ChessGame.ToggleHelp` | chess.py:571-572 | the H key flips the help switch and nothing else |
| `Chess.ChessGame.ToggleAi` | chess.py:573-574 | the A key flips the AI switch and nothing else |

## Left out

- Rendering (`draw_board`, `draw_pieces`, `draw_ui`, `draw_help_screen`), the frame clock and the event pump: drawing has no behaviour to state beyond the square placement modelled in `Geometry`.
- Asset and sound generation and playback (`load_images`, `create_placeholder_piece`, `create_simple_piece`, `init_sounds`, `_create_simple_sound`, `play_sound`): file I/O and floating-point audio. The model only records which sounds are requested.
- The internals of python-chess: move generation, check, mate, stalemate and material detection, FEN and UCI. A position is an opaque value. `push` and `reset` are parameters. Only the turn flip and the full-move count of `push` are stated (`Rules.Pushes`), and only the lemmas that need them require them.
- The Stockfish engine, the FEN string sent to it and UCI parsing: the suggestion is a parameter, and None covers a missing engine, an exception and an unparsable reply.
- `time.sleep`, the `threading.Thread` that runs `ai_move`, and races with the main loop. `ai_move` is modelled as one atomic step, with its guard read in the same state as its move. In the source, the guard is read before the half-second sleep, so a reset, a click or a timeout during the sleep is not seen by it. If Black's clock runs out during the sleep (chess.py:447-451), the game is over and won by White, yet the thread still calls `make_move`, which checks nothing; a mating move then rewrites the winner to Black (chess.py:535). The model does not capture this.
- `Chess.ChessGame.Click`: requires that a selected square still holds a piece. The source would raise an exception on an empty selected square. That can happen only when the AI thread moves while a human selection is pending, which is the race left out above.
- `Match.TickPreserves`: the upper bound of 180 s on the clocks is stated only for timestamps that do not run backwards. The source subtracts any difference, so a wall clock stepping back would add time.
- Floating-point time: clocks and timestamps are whole milliseconds, so sub-millisecond remainders are not modelled.
- The `Q` key and the window-close event, which end the loop: no game state changes. The unused `current_player` field.
