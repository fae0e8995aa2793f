/**
 * `ChessGame`: the object whose fields the event loop, the timer and the
 * AI update in place. Each method is proved to leave the fields exactly
 * as the matching function of module Match says.
 */
module Chess {
  import opened Wrappers
  import opened Rules
  import Geometry
  import Audio
  import Match

  class ChessGame {
    var board: Position
    var selectedSquare: Option<int>
    var validMoves: seq<int>
    var gameOver: bool
    var winner: Match.Outcome
    var aiEnabled: bool
    var showHelp: bool
    var gameStarted: bool
    var whiteTime: int
    var blackTime: int
    var lastTick: Option<int>

    /** The fields, as one value. */
    function State(): Match.Game
      reads this
    {
      Match.Game(board, selectedSquare, validMoves, gameOver, winner, aiEnabled, showHelp,
                 gameStarted, whiteTime, blackTime, lastTick)
    }

    /** `__init__`, given the library's starting board. */
    constructor (start: Position)
      ensures State() == Match.Initial(start)
    {
      board := start;
      selectedSquare := None;
      validMoves := [];
      gameOver := false;
      winner := Match.Undecided;
      aiEnabled := true;
      showHelp := false;
      gameStarted := false;
      whiteTime := Match.START_TIME;
      blackTime := Match.START_TIME;
      lastTick := None;
    }

    /** `get_valid_moves`: the to-squares of the legal moves from `square`, in order. */
    method GetValidMoves(square: int) returns (moves: seq<int>)
      ensures moves == Match.Destinations(board.legalMoves, square)
    {
      var legal := board.legalMoves;
      moves := [];
      for i := 0 to |legal|
        invariant moves == Match.Destinations(legal[..i], square)
      {
        assert legal[..i + 1][..i] == legal[..i];
        if legal[i].fromSquare == square {
          moves := moves + [legal[i].toSquare];
        }
      }
      assert legal[..|legal|] == legal;
    }

    /** `update_timer`, with the wall clock reading `now`. */
    method UpdateTimer(now: int) returns (sounds: seq<Audio.Sound>)
      modifies this
      ensures State() == Match.Tick(old(State()), now).next
      ensures sounds == Match.Tick(old(State()), now).sounds
    {
      sounds := [];
      if !gameStarted || gameOver {
        return;
      }
      if lastTick.None? {
        lastTick := Some(now);
        return;
      }
      var elapsed := now - lastTick.value;
      lastTick := Some(now);
      if board.turn == White {
        whiteTime := whiteTime - elapsed;
        if whiteTime <= 0 {
          whiteTime := 0;
          gameOver := true;
          winner := Match.Won(Black);
          sounds := [Audio.Timeout];
        }
      } else {
        blackTime := blackTime - elapsed;
        if blackTime <= 0 {
          blackTime := 0;
          gameOver := true;
          winner := Match.Won(White);
          sounds := [Audio.Timeout];
        }
      }
    }

    /** `make_move`: `after` is the library's board once `move` is pushed. */
    method MakeMove(move: Move, after: Position, now: int) returns (sounds: seq<Audio.Sound>)
      modifies this
      ensures State() == Match.Apply(old(State()), move, after, now).next
      ensures sounds == Match.Apply(old(State()), move, after, now).sounds
    {
      var isCapture := move in board.captures;
      board := after;
      StartClock(now);
      var endSounds := Conclude();
      sounds := [Match.MoveSound(after.isCheck, isCapture)] + endSounds;
    }

    /** The clock-start step of `make_move`, on the board just pushed. */
    method StartClock(now: int)
      modifies this
      ensures State() == Match.Pushed(old(State()), old(board), now)
    {
      if !gameStarted && board.fullmoveNumber > 1 {
        gameStarted := true;
        lastTick := Some(now);
      }
    }

    /** The verdict step of `make_move`, on the board just pushed. */
    method Conclude() returns (sounds: seq<Audio.Sound>)
      modifies this
      ensures State() == Match.Concluded(old(State()))
      ensures sounds == Match.EndSounds(board)
    {
      sounds := [];
      if board.isCheckmate {
        gameOver := true;
        winner := if board.turn == Black then Match.Won(White) else Match.Won(Black);
        sounds := [Audio.Checkmate];
      } else if board.isStalemate || board.isInsufficientMaterial {
        gameOver := true;
        winner := Match.Drawn;
        sounds := [Audio.Stalemate];
      }
    }

    /** `reset_game`: `start` is the library's board after `reset`. */
    method ResetGame(start: Position) returns (sounds: seq<Audio.Sound>)
      modifies this
      ensures State() == Match.Reset(old(State()), start).next
      ensures sounds == Match.Reset(old(State()), start).sounds
    {
      board := start;
      selectedSquare := None;
      validMoves := [];
      gameOver := false;
      winner := Match.Undecided;
      whiteTime := Match.START_TIME;
      blackTime := Match.START_TIME;
      lastTick := None;
      gameStarted := false;
      sounds := [Audio.Select];
    }

    /**
     * The mouse branch of the event loop. `push` gives the library's board
     * after a move is pushed onto the current one; `startAi` says whether
     * an AI turn is started afterwards.
     */
    method Click(x: int, y: int, button: int, push: Move -> Position, now: int)
      returns (sounds: seq<Audio.Sound>, startAi: bool)
      requires Match.SelectedPieceExists(State())
      modifies this
      ensures var s := Match.Click(old(State()), x, y, button, push, now);
        State() == s.next && sounds == s.sounds && startAi == s.startAi
    {
      sounds, startAi := [], false;
      if gameOver || showHelp || button != Match.LEFT_BUTTON {
        return;
      }
      var square := Geometry.SquareAt(x, y);
      if square.Some? {
        if selectedSquare.None? {
          var piece := PieceAt(board, square.value);
          if piece.Some? && piece.value.color == board.turn {
            selectedSquare := square;
            validMoves := GetValidMoves(square.value);
            sounds := [Audio.Select];
          }
        } else {
          if square.value in validMoves {
            var move := Match.MoveFor(board, selectedSquare.value, square.value);
            sounds := MakeMove(move, push(move), now);
            startAi := aiEnabled && !gameOver && board.turn == Black;
          }
          selectedSquare := None;
          validMoves := [];
        }
      }
    }

    /**
     * `ai_move`: `suggestion` is the engine's move (None when the engine is
     * missing, fails or names nothing) and `pick` the random choice among
     * the legal moves.
     */
    method AiMove(suggestion: Option<Move>, pick: nat, push: Move -> Position, now: int)
      returns (sounds: seq<Audio.Sound>)
      requires |board.legalMoves| == 0 || pick < |board.legalMoves|
      modifies this
      ensures State() == Match.AiTurn(old(State()), suggestion, pick, push, now).next
      ensures sounds == Match.AiTurn(old(State()), suggestion, pick, push, now).sounds
    {
      sounds := [];
      if !aiEnabled || gameOver || board.turn == White {
        return;
      }
      if suggestion.Some? && suggestion.value in board.legalMoves {
        sounds := MakeMove(suggestion.value, push(suggestion.value), now);
        return;
      }
      var legal := board.legalMoves;
      if |legal| > 0 {
        var move := legal[pick];
        sounds := MakeMove(move, push(move), now);
      }
    }

    /** The H key. */
    method ToggleHelp()
      modifies this
      ensures State() == old(State()).(showHelp := !old(showHelp))
    {
      showHelp := !showHelp;
    }

    /** The A key. */
    method ToggleAi()
      modifies this
      ensures State() == old(State()).(aiEnabled := !old(aiEnabled))
    {
      aiEnabled := !aiEnabled;
    }
  }
}
