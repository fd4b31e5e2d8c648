/** The move step that both guest programs perform in `make_move`: load the
    board from FEN, play the player's move, and, unless that ended the game,
    play the engine's best reply found at a given search depth.

    `Step` is the reference definition of that step, shared by the two copies
    (`ChessGuest.MakeMove` searches at depth 2, `FibonacciGuest.MakeMove` at
    depth 1); the lemmas below state what it promises. */
module MoveStep {
  import opened Wrappers
  import opened ChessEngine
  import opened GameStates

  /** Why a guest panics: an `unwrap` on an error, or an illegal move. */
  datatype Failure =
    | BadFen
    | BadMoveText
    | IllegalPlayerMove(move: Move)
    | IllegalEngineMove(move: Move)
    | FenNotRendered

  /** A guest either panics, committing nothing, or finishes with a value. */
  datatype Outcome<T> = Panic(why: Failure) | Done(value: T)

  /** The game after the step, the engine's reply if the engine was asked for
      one, and the resulting state. */
  datatype StepResult<B, M> = StepResult(game: Game<B, M>, reply: Option<Move>, state: GameState)

  /** The state after the engine's reply, given what playing a legal reply
      yielded (an illegal reply panics instead). */
  function ReplyState<B>(res: GameResult<B>): GameState
    requires !res.IllegalMove?
  {
    match res
    case Continuing(_) => Ongoing
    case Victory(_) => Loss
    case Stalemate => Draw
  }

  /** The move step at search depth `depth`. Whatever it finishes with is the
      loaded game with at most its board replaced. */
  function Step<B, M>(o: Oracle<B, M>, fen: string, playerMove: string, depth: nat): (r: Outcome<StepResult<B, M>>)
    ensures r.Done? ==> o.fromFen(fen).Some? && r.value.game.meta == o.fromFen(fen).value.meta
  {
    match o.fromFen(fen)
    case None => Panic(BadFen)
    case Some(game) =>
      match o.parseMove(playerMove)
      case None => Panic(BadMoveText)
      case Some(pm) =>
        match o.playMove(game.board, pm)
        case IllegalMove(e) => Panic(IllegalPlayerMove(e))
        case Victory(_) => Done(StepResult(game, None, Win))
        case Stalemate => Done(StepResult(game, None, Draw))
        case Continuing(b1) =>
          var m := o.bestNextMove(b1, depth);
          match o.playMove(b1, m)
          case IllegalMove(e) => Panic(IllegalEngineMove(e))
          case Continuing(b2) => Done(StepResult(game.(board := b2), Some(m), Ongoing))
          case Victory(_) => Done(StepResult(game.(board := b1), Some(m), Loss))
          case Stalemate => Done(StepResult(game.(board := b1), Some(m), Draw))
  }

  /** A player move that wins or stalemates ends the step at once: the state is
      Win or Draw, the game is the loaded one, no reply is reported, and the
      result does not depend on the engine's search at all. */
  lemma PlayerEndsGame<B, M>(o: Oracle<B, M>, fen: string, playerMove: string, depth: nat,
                             game: Game<B, M>, pm: Move, search: (B, nat) -> Move)
    requires o.fromFen(fen) == Some(game) && o.parseMove(playerMove) == Some(pm)
    requires o.playMove(game.board, pm).Victory? || o.playMove(game.board, pm).Stalemate?
    ensures Step(o, fen, playerMove, depth)
            == Done(StepResult(game, None, if o.playMove(game.board, pm).Victory? then Win else Draw))
    ensures Step(o.(bestNextMove := search), fen, playerMove, depth) == Step(o, fen, playerMove, depth)
  {
  }

  /** A player move that continues is answered by the engine's best move on the
      board AFTER the player's move, searched at `depth`; the reply's result
      decides the state, and the board is the reply's continuation when the game
      goes on, and the post-player-move board when the reply ends it. */
  lemma EngineReplies<B, M>(o: Oracle<B, M>, fen: string, playerMove: string, depth: nat,
                            game: Game<B, M>, pm: Move, b1: B)
    requires o.fromFen(fen) == Some(game) && o.parseMove(playerMove) == Some(pm)
    requires o.playMove(game.board, pm) == Continuing(b1)
    requires !o.playMove(b1, o.bestNextMove(b1, depth)).IllegalMove?
    ensures Step(o, fen, playerMove, depth)
            == var m := o.bestNextMove(b1, depth);
               var res := o.playMove(b1, m);
               Done(StepResult(game.(board := if res.Continuing? then res.next else b1), Some(m), ReplyState(res)))
  {
  }

  /** The step panics exactly when the FEN or the move text does not parse, or
      the player's move or the engine's reply is illegal; the panic names the
      first of these that happens. */
  lemma PanicsExactly<B, M>(o: Oracle<B, M>, fen: string, playerMove: string, depth: nat)
    ensures Step(o, fen, playerMove, depth).Panic? <==>
            || o.fromFen(fen).None?
            || o.parseMove(playerMove).None?
            || o.playMove(o.fromFen(fen).value.board, o.parseMove(playerMove).value).IllegalMove?
            || (var b1 := o.playMove(o.fromFen(fen).value.board, o.parseMove(playerMove).value);
                b1.Continuing? && o.playMove(b1.next, o.bestNextMove(b1.next, depth)).IllegalMove?)
    ensures o.fromFen(fen).None? ==> Step(o, fen, playerMove, depth) == Panic(BadFen)
    ensures o.fromFen(fen).Some? && o.parseMove(playerMove).None? ==>
            Step(o, fen, playerMove, depth) == Panic(BadMoveText)
    ensures o.fromFen(fen).Some? && o.parseMove(playerMove).Some? &&
            o.playMove(o.fromFen(fen).value.board, o.parseMove(playerMove).value).IllegalMove? ==>
            Step(o, fen, playerMove, depth)
            == Panic(IllegalPlayerMove(o.playMove(o.fromFen(fen).value.board, o.parseMove(playerMove).value).move))
    ensures o.fromFen(fen).Some? && o.parseMove(playerMove).Some? ==>
            var first := o.playMove(o.fromFen(fen).value.board, o.parseMove(playerMove).value);
            first.Continuing? ==>
              var reply := o.playMove(first.next, o.bestNextMove(first.next, depth));
              reply.IllegalMove? ==> Step(o, fen, playerMove, depth) == Panic(IllegalEngineMove(reply.move))
  {
  }

  /** Only the board of the game changes: every other field is as loaded, and
      the board is the loaded one, the board after the player's move, or the
      board after the engine's reply. */
  lemma OnlyBoardChanges<B, M>(o: Oracle<B, M>, fen: string, playerMove: string, depth: nat)
    ensures var r := Step(o, fen, playerMove, depth);
            r.Done? ==>
              && o.fromFen(fen).Some?
              && o.parseMove(playerMove).Some?
              && var game := o.fromFen(fen).value;
                 var first := o.playMove(game.board, o.parseMove(playerMove).value);
                 && r.value.game.meta == game.meta
                 && (r.value.reply.None? <==> !first.Continuing?)
                 && (r.value.reply.None? ==> r.value.game == game)
                 && (r.value.reply.Some? ==>
                       && r.value.reply.value == o.bestNextMove(first.next, depth)
                       && var second := o.playMove(first.next, r.value.reply.value);
                          r.value.game.board == if second.Continuing? then second.next else first.next)
  {
  }

  /** The game goes on (state Ongoing) exactly when the engine's reply was
      played and continued; a Loss is exactly the engine's victory and a Win
      exactly the player's. */
  lemma StateMeaning<B, M>(o: Oracle<B, M>, fen: string, playerMove: string, depth: nat)
    ensures var r := Step(o, fen, playerMove, depth);
            r.Done? ==>
              && o.fromFen(fen).Some?
              && o.parseMove(playerMove).Some?
              && var first := o.playMove(o.fromFen(fen).value.board, o.parseMove(playerMove).value);
                 && (r.value.state == Win <==> first.Victory?)
                 && (r.value.state == Ongoing <==>
                       r.value.reply.Some? && o.playMove(first.next, r.value.reply.value).Continuing?)
                 && (r.value.state == Loss <==>
                       r.value.reply.Some? && o.playMove(first.next, r.value.reply.value).Victory?)
  {
  }

  /** The search depth only reaches the step through the engine's search: two
      depths at which the search picks the same move on every board give the
      same step. The two guests therefore differ only in what their searches
      choose. */
  lemma DepthOnlyAffectsSearch<B, M>(o: Oracle<B, M>, fen: string, playerMove: string, d1: nat, d2: nat)
    requires forall b :: o.bestNextMove(b, d1) == o.bestNextMove(b, d2)
    ensures Step(o, fen, playerMove, d1) == Step(o, fen, playerMove, d2)
  {
    if o.fromFen(fen).Some? && o.parseMove(playerMove).Some? {
      var first := o.playMove(o.fromFen(fen).value.board, o.parseMove(playerMove).value);
      if first.Continuing? {
        SameSearch(o, first.next, d1, d2);
      }
    }
  }

  /** Instance of the hypothesis of `DepthOnlyAffectsSearch` at one board. */
  lemma SameSearch<B, M>(o: Oracle<B, M>, b: B, d1: nat, d2: nat)
    requires forall b' :: o.bestNextMove(b', d1) == o.bestNextMove(b', d2)
    ensures o.bestNextMove(b, d1) == o.bestNextMove(b, d2)
  {
  }
}
