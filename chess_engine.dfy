/** The part of the `chess_engine` crate that the zkVM guests use, abstracted.

    Chess rules, FEN parsing and rendering, move-text parsing and the search live
    in the crate and are not modelled: they are the function-valued fields of an
    `Oracle`, about which nothing is assumed. Squares and piece names are
    represented by the text their `Display` / `get_name` produce. */
module ChessEngine {
  import opened Wrappers

  /** The side that won, carried by `GameResult::Victory`. */
  datatype Color = White | Black

  /** `chess_engine::Move`: the five kinds of move the engine can play or report. */
  datatype Move =
    | Piece(from: string, to: string)
    | Promotion(from: string, to: string, piece: string)
    | KingSideCastle
    | QueenSideCastle
    | Resign

  /** `chess_engine::GameResult`: what playing one move on a board yields. */
  datatype GameResult<B> =
    | Continuing(next: B)
    | Victory(winner: Color)
    | Stalemate
    | IllegalMove(move: Move)

  /** `chess_engine::Game`: the board, plus every other field of the game
      (clocks, move counters), which the guests never touch, as `meta`. */
  datatype Game<B, M> = Game(board: B, meta: M)

  /** The engine operations the guests call, uninterpreted.
      - `fromFen`: `Game::from_fen(fen, None, None)`, `None` when it returns an error;
      - `toFen`: `Game::to_fen(0, 0)`, `None` when it returns an error;
      - `parseMove`: `String`'s `try_into` a `Move`, `None` when it returns an error;
      - `playMove`: `Board::play_move`;
      - `bestNextMove`: the move component of `Board::get_best_next_move(depth)`. */
  datatype Oracle<!B, !M> = Oracle(
    fromFen: string -> Option<Game<B, M>>,
    toFen: Game<B, M> -> Option<string>,
    parseMove: string -> Option<Move>,
    playMove: (B, Move) -> GameResult<B>,
    bestNextMove: (B, nat) -> Move)

  /** The text `Display` gives a board position: a file letter and a rank digit. */
  predicate IsSquareName(s: string)
  {
    |s| == 2 && 'a' <= s[0] <= 'h' && '1' <= s[1] <= '8'
  }

  /** Every square a move mentions is rendered as a square name. */
  predicate WellFormed(m: Move)
  {
    match m
    case Piece(from, to) => IsSquareName(from) && IsSquareName(to)
    case Promotion(from, to, _) => IsSquareName(from) && IsSquareName(to)
    case _ => true
  }
}
