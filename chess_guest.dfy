/** The guest program `chess`: one player move and the engine's reply at search
    depth 2, reporting the reply as minimal move text. */
module ChessGuest {
  import opened Wrappers
  import opened ChessEngine
  import opened GameStates
  import opened MoveStep

  /** The depth `make_move` passes to `get_best_next_move`. */
  const SearchDepth: nat := 2

  /** The values `main` returns for ABI encoding: the input board, the resulting
      FEN, the engine's move text and the state byte. */
  datatype Journal = Journal(boardState: string, resultFen: string, engineMove: string, state: uint8)

  /** `format_move`: a minimal, UCI-like rendering of a move. */
  function FormatMove(m: Move): (r: string)
    ensures m.Piece? || m.Promotion? ==>
              |r| >= |m.from| + |m.to| && r[..|m.from| + |m.to|] == m.from + m.to
    ensures !(m.Piece? || m.Promotion?) ==> r == "O-O" || r == "O-O-O" || r == "Resign"
  {
    match m
    case Piece(from, to) => from + to
    case Promotion(from, to, piece) => from + to + " " + piece
    case KingSideCastle => "O-O"
    case QueenSideCastle => "O-O-O"
    case Resign => "Resign"
  }

  /** The engine-move text `make_move` returns: empty when the engine was not
      asked for a reply, the formatted reply otherwise. */
  function Reported(reply: Option<Move>): string
  {
    match reply
    case None => ""
    case Some(m) => FormatMove(m)
  }

  /** The five shapes of `format_move`'s output: a plain move is the two square
      names with no separator; a promotion adds one space and the piece name;
      castling and resigning are fixed words. */
  lemma FormatMoveShapes(m: Move)
    ensures m.Piece? ==> FormatMove(m)[..|m.from|] == m.from && FormatMove(m)[|m.from|..] == m.to
    ensures m.Promotion? ==>
              var n := |m.from| + |m.to|;
              && |FormatMove(m)| == n + 1 + |m.piece|
              && FormatMove(m)[..n] == m.from + m.to
              && FormatMove(m)[n] == ' '
              && FormatMove(m)[n + 1..] == m.piece
    ensures m == KingSideCastle ==> FormatMove(m) == "O-O"
    ensures m == QueenSideCastle ==> FormatMove(m) == "O-O-O"
    ensures m == Resign ==> FormatMove(m) == "Resign"
  {
  }

  /** For a move between two squares, the first two characters of its text are
      the origin and the next two the destination (the compact form a reader of
      the journal splits); a promotion carries the same four characters first. */
  lemma CompactSquares(m: Move)
    requires WellFormed(m) && (m.Piece? || m.Promotion?)
    ensures |FormatMove(m)| >= 4
    ensures FormatMove(m)[..2] == m.from && FormatMove(m)[2..4] == m.to
    ensures m.Piece? <==> |FormatMove(m)| == 4
  {
  }

  /** With square names of two characters, `format_move` loses nothing: distinct
      moves are formatted as distinct texts, and no move is formatted as the
      empty text. */
  lemma FormatMoveInjective(m1: Move, m2: Move)
    requires WellFormed(m1) && WellFormed(m2)
    ensures FormatMove(m1) != ""
    ensures FormatMove(m1) == FormatMove(m2) ==> m1 == m2
  {
    FormatMoveShapes(m1);
    FormatMoveShapes(m2);
    var t1, t2 := FormatMove(m1), FormatMove(m2);
    if t1 == t2 {
      if m1.Piece? || m1.Promotion? {
        CompactSquares(m1);
      }
      if m2.Piece? || m2.Promotion? {
        CompactSquares(m2);
      }
      if m1.Promotion? && m2.Promotion? {
        assert m1.piece == t1[5..] == t2[5..] == m2.piece;
      }
    }
  }

  /** `make_move`: load the game, play the player's move into it, then ask the
      engine for its best reply at depth 2 and play that. */
  method MakeMove<B, M>(o: Oracle<B, M>, boardFen: string, playerMove: string)
    returns (r: Outcome<(Game<B, M>, string, GameState)>)
    ensures match Step(o, boardFen, playerMove, SearchDepth)
            case Panic(why) => r == Panic(why)
            case Done(s) => r == Done((s.game, Reported(s.reply), s.state))
  {
    var loaded := o.fromFen(boardFen);
    if loaded.None? {
      return Panic(BadFen);
    }
    var game := loaded.value;
    var parsed := o.parseMove(playerMove);
    if parsed.None? {
      return Panic(BadMoveText);
    }

    // The player's move; a game-ending one returns the loaded game at once.
    match o.playMove(game.board, parsed.value) {
      case Continuing(board) =>
        game := game.(board := board);
      case Victory(_) =>
        return Done((game, "", Win));
      case Stalemate =>
        return Done((game, "", Draw));
      case IllegalMove(e) =>
        return Panic(IllegalPlayerMove(e));
    }

    // The engine's reply, searched on the board after the player's move.
    var m := o.bestNextMove(game.board, SearchDepth);
    var state: GameState;
    match o.playMove(game.board, m) {
      case Continuing(board) =>
        game := game.(board := board);
        state := Ongoing;
      case Victory(_) =>
        state := Loss;
      case Stalemate =>
        state := Draw;
      case IllegalMove(e) =>
        return Panic(IllegalEngineMove(e));
    }
    r := Done((game, FormatMove(m), state));
  }

  /** `main`: run `make_move` on the decoded parameters and return the
      journal values; rendering the resulting game as FEN and unwrapping it is
      the last step that can panic. */
  method Respond<B, M>(o: Oracle<B, M>, boardState: string, playerMove: string)
    returns (r: Outcome<Journal>)
    ensures r.Done? ==> r.value.boardState == boardState && r.value.state <= 3
    ensures match Step(o, boardState, playerMove, SearchDepth)
            case Panic(why) => r == Panic(why)
            case Done(s) =>
              match o.toFen(s.game)
              case None => r == Panic(FenNotRendered)
              case Some(fen) => r == Done(Journal(boardState, fen, Reported(s.reply), Discriminant(s.state)))
  {
    var made := MakeMove(o, boardState, playerMove);
    if made.Panic? {
      return Panic(made.why);
    }
    var (result, engineMove, state) := made.value;
    var resultFen := o.toFen(result);
    if resultFen.None? {
      return Panic(FenNotRendered);
    }
    r := Done(Journal(boardState, resultFen.value, engineMove, Discriminant(state)));
  }

  /** The engine-move text is empty when the player's move ended the game (the
      engine was not asked); after a continuing player move it is the text of
      the move the engine chose at depth 2 on the board after the player's move,
      which is never empty for a well-formed move. */
  lemma EngineTextMeaning<B, M>(o: Oracle<B, M>, boardFen: string, playerMove: string,
                                game: Game<B, M>, pm: Move)
    requires o.fromFen(boardFen) == Some(game) && o.parseMove(playerMove) == Some(pm)
    ensures var first := o.playMove(game.board, pm);
            var s := Step(o, boardFen, playerMove, SearchDepth);
            && (first.Victory? || first.Stalemate? ==> s.Done? && Reported(s.value.reply) == "")
            && (first.Continuing? && s.Done? ==>
                  var m := o.bestNextMove(first.next, SearchDepth);
                  && Reported(s.value.reply) == FormatMove(m)
                  && (WellFormed(m) ==> Reported(s.value.reply) != ""))
  {
  }
}
