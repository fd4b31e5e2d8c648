/** The guest program `fibonacci` (an earlier copy of the chess guest): one
    player move and the engine's reply at search depth 1, with no move text;
    it commits the input board, the resulting FEN and the state byte. */
module FibonacciGuest {
  import opened Wrappers
  import opened ChessEngine
  import opened GameStates
  import opened MoveStep

  /** The depth `make_move` passes to `get_best_next_move`. */
  const SearchDepth: nat := 1

  /** The journal `main` commits, before its ABI encoding: the input board, the
      resulting FEN and the state byte. */
  datatype Journal = Journal(boardState: string, resultFen: string, state: uint8)

  /** `make_move`: load the game, play the player's move into it, then the
      engine's best reply at depth 1. */
  method MakeMove<B, M>(o: Oracle<B, M>, boardFen: string, playerMove: string)
    returns (r: Outcome<(Game<B, M>, GameState)>)
    ensures match Step(o, boardFen, playerMove, SearchDepth)
            case Panic(why) => r == Panic(why)
            case Done(s) => r == Done((s.game, s.state))
  {
    var loaded := o.fromFen(boardFen);
    if loaded.None? {
      return Panic(BadFen);
    }
    var game := loaded.value;
    var parsed := o.parseMove(playerMove);
    if parsed.None? {
      return Panic(BadMoveText);
    }

    // The player's move; a game-ending one returns the loaded game at once.
    match o.playMove(game.board, parsed.value) {
      case Continuing(board) =>
        game := game.(board := board);
      case Victory(_) =>
        return Done((game, Win));
      case Stalemate =>
        return Done((game, Draw));
      case IllegalMove(e) =>
        return Panic(IllegalPlayerMove(e));
    }

    // The engine's reply, searched on the board after the player's move.
    var m := o.bestNextMove(game.board, SearchDepth);
    var state: GameState;
    match o.playMove(game.board, m) {
      case Continuing(board) =>
        game := game.(board := board);
        state := Ongoing;
      case Victory(_) =>
        state := Loss;
      case Stalemate =>
        state := Draw;
      case IllegalMove(e) =>
        return Panic(IllegalEngineMove(e));
    }
    r := Done((game, state));
  }

  /** `main`, from the decoded parameters on: run `make_move`, render the
      resulting game as FEN (a panic if that fails) and build the journal. */
  method Respond<B, M>(o: Oracle<B, M>, boardState: string, playerMove: string)
    returns (r: Outcome<Journal>)
    ensures r.Done? ==> r.value.boardState == boardState && r.value.state <= 3
    ensures match Step(o, boardState, playerMove, SearchDepth)
            case Panic(why) => r == Panic(why)
            case Done(s) =>
              match o.toFen(s.game)
              case None => r == Panic(FenNotRendered)
              case Some(fen) => r == Done(Journal(boardState, fen, Discriminant(s.state)))
  {
    var made := MakeMove(o, boardState, playerMove);
    if made.Panic? {
      return Panic(made.why);
    }
    var (result, state) := made.value;
    var resultFen := o.toFen(result);
    if resultFen.None? {
      return Panic(FenNotRendered);
    }
    r := Done(Journal(boardState, resultFen.value, Discriminant(state)));
  }
}
