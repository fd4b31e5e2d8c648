# bonsai-chess: the move step of the zkVM guests and the front-end adapters

bonsai-chess plays chess against an engine whose every move is proved in the
RISC Zero zkVM. The repository's own logic is small, and this project models it:

- **The guest move step** (`make_move` in `methods/guest/src/bin/chess.rs` and in its
  earlier copy `methods/guest/src/bin/fibonacci.rs`). It loads a game from FEN and plays
  the player's move. Unless that move ends the game, it asks the engine for its best reply
  and plays it. Each engine `GameResult` becomes a `GameState` byte (Ongoing=0, Win=1,
  Loss=2, Draw=3). The chess guest also reports the reply as text (`format_move`).
  `main` returns the journal: the input board, the resulting FEN, the move text (chess
  guest only) and the state byte.
- **The front-end adapters** (`frontend/src/util.ts`). `toDests` builds chessground's map
  from each origin square to its destination squares. `toColor` turns chess.js's
  side-to-move marker into chessground's colour.

The chess rules, FEN handling, move parsing and search belong to the `chess_engine`
crate. Move legality and turn order belong to chess.js. Both are modelled as
uninterpreted functions:

- `ChessEngine.Oracle` holds `from_fen`, `to_fen`, the String-to-Move conversion,
  `play_move` and `get_best_next_move`.
- `FrontendUtil.ChessView` holds `moves({square, verbose: true})` and `turn()`.

A Rust panic (an `unwrap` on an error, or an `IllegalMove`) is the outcome
`MoveStep.Outcome.Panic` with its reason. Nothing is committed in that case.

Module layout:

- `Wrappers` holds `Option`.
- `ChessEngine` holds the abstract engine: `Move`, `GameResult`, `Game`, `Oracle`.
- `GameStates` holds the `GameState` enum and its byte. Both guests declare this enum identically.
- `MoveStep` holds `Step`, the reference definition of the move step, shared by both
  copies, with the search depth as a parameter.
- `ChessGuest` and `FibonacciGuest` each hold the imperative `make_move` of one guest (as
  `MakeMove`) and its `main` (as `Respond`). `MakeMove` keeps a local `game` and reassigns
  its board step by step. Its `ensures` ties the result to `Step` at that guest's search
  depth: 2 for the chess guest, 1 for the fibonacci guest.
- `FrontendUtil` holds `ToDests` (a loop over `Squares`, proved against `DestinationMap`)
  and `ToColor`.

A `Game` is `Game(board, meta)`. `meta` stands for every field of `chess_engine::Game`
other than the board, so "the step only changes the board" can be stated.

Squares and piece names are abstract strings, namely the text their `Display` /
`get_name` produce. A move is `WellFormed` when its squares are two-character names
(file `a`-`h`, rank `1`-`8`). The format lemmas that need a fixed width assume this.

`toDests` has one key per origin square that has a legal move (10 in the starting
position), not one per legal move (20); `FrontendUtil.DestsBounded` proves that each key
has as many destinations as that square has legal moves.

## Model

| member | source | states |
|---|---|---|
| `GameStates.Discriminant` | methods/guest/src/bin/chess.rs:22-28 | `state as u8` is the enum's discriminant, and it is always at most 3 |
| `GameStates.DiscriminantRoundTrip` | methods/guest/src/bin/fibonacci.rs:26-32 | reading the committed state byte back gives the state that was committed |
| `GameStates.DiscriminantOnto` | methods/guest/src/bin/fibonacci.rs:111 | exactly the bytes 0..3 are state bytes, and each of them comes from its state |
| `GameStates.DiscriminantInjective` | methods/guest/src/bin/chess.rs:89 | distinct states are committed as distinct bytes |
| `MoveStep.Step` | methods/guest/src/bin/chess.rs:45-75 | the move step at a given depth, the reference definition of both `make_move` copies (fibonacci.rs:34-64 is the depth-1 copy); whatever it finishes with is the loaded game with only its board replaced. Its dispatch is stated in `PlayerEndsGame`, `EngineReplies`, `PanicsExactly`, `OnlyBoardChanges` and `StateMeaning` |
| `MoveStep.PlayerEndsGame` | methods/guest/src/bin/chess.rs:52-55 | if the player's move wins, the result is Win; if it stalemates, the result is Draw. Either way the game is the loaded one and no reply is reported. The result is the same whatever the engine's search would answer, so the engine is never consulted |
| `MoveStep.EngineReplies` | methods/guest/src/bin/chess.rs:61-69 | after a continuing player move, the reply is the engine's best move on the post-player-move board at the given depth. `Continuing(b)` gives board `b` and Ongoing. `Victory` gives Loss and `Stalemate` gives Draw, both with the post-player-move board |
| `MoveStep.PanicsExactly` | methods/guest/src/bin/chess.rs:49-72 | the step panics exactly when the FEN or the move text fails to parse, the player's move is illegal, or the engine's move is illegal. The panic reason is the first such failure: `BadFen`, `BadMoveText`, `IllegalPlayerMove` or `IllegalEngineMove`, each carrying the illegal move where there is one |
| `MoveStep.OnlyBoardChanges` | methods/guest/src/bin/fibonacci.rs:38-63 | every field of the game other than the board is as loaded. The board is the loaded one when no reply was made. Otherwise the reply was chosen on the post-player-move board, and the board is the reply's continuation or the post-player-move board |
| `MoveStep.StateMeaning` | methods/guest/src/bin/fibonacci.rs:43-58 | the state is Win exactly when the player's move was a victory; Ongoing exactly when the engine's reply was played and continued; Loss exactly when the engine's reply was a victory |
| `MoveStep.DepthOnlyAffectsSearch` | methods/guest/src/bin/fibonacci.rs:51 | the depth reaches the step only through the search: two depths at which the search agrees on every board give the same step. So the two copies' move steps (depths 1 and 2) differ only in their searches' choices |
| `ChessGuest.FormatMove` | methods/guest/src/bin/chess.rs:32-43 | the text of each `Move` variant: a move between squares starts with the origin followed by the destination, and every other move is one of the fixed words `O-O`, `O-O-O`, `Resign`. Its full shapes are in `FormatMoveShapes`, `CompactSquares` and `FormatMoveInjective` |
| `ChessGuest.FormatMoveShapes` | methods/guest/src/bin/chess.rs:32-43 | a plain move is its origin then its destination, with no separator. A promotion is both squares, one space, then the piece name. The castling moves are `O-O` and `O-O-O`. Resigning is `Resign` |
| `ChessGuest.CompactSquares` | methods/guest/src/bin/chess.rs:34-38 | for a move between two squares, the first two characters of its text are the origin and the next two are the destination. The text has length 4 exactly for a plain move |
| `ChessGuest.FormatMoveInjective` | methods/guest/src/bin/chess.rs:32-43 | over well-formed moves, distinct moves give distinct texts and no text is empty |
| `ChessGuest.MakeMove` | methods/guest/src/bin/chess.rs:45-75 | the imperative `make_move` returns the panic or the (game, engine text, state) of the move step at depth 2. The engine text is empty when no reply was made, and `format_move` of the reply otherwise |
| `ChessGuest.Respond` | methods/guest/src/bin/chess.rs:77-90 | the returned tuple echoes the input board unchanged and its state byte is at most 3. It holds the FEN of the step's game and the step's engine text. It panics when the step panics or the FEN cannot be rendered |
| `ChessGuest.EngineTextMeaning` | methods/guest/src/bin/chess.rs:51-74 | the engine text is empty when the player's move ended the game. After a continuing player move, it is `format_move` of the engine's depth-2 choice on the post-player-move board, which is non-empty for a well-formed move |
| `FibonacciGuest.MakeMove` | methods/guest/src/bin/fibonacci.rs:34-64 | the imperative `make_move` returns the panic or the (game, state) of the move step at depth 1 |
| `FibonacciGuest.Respond` | methods/guest/src/bin/fibonacci.rs:90-112 | the committed triple is the input board unchanged, the FEN of the step's game, and a state byte of at most 3. It panics when the step panics or the FEN cannot be rendered |
| `FrontendUtil.Targets` | frontend/src/util.ts:11 | the destinations are the `to` field of each queried move, in query order, one for each move |
| `FrontendUtil.ToDests` | frontend/src/util.ts:4-15 | every key is in `SQUARES`. No key maps to an empty list. Every square with a legal move is a key. Each key maps to the destinations of its moves. The whole map equals `DestinationMap` of the engine view |
| `FrontendUtil.NoMovesNoDests` | frontend/src/util.ts:6-13 | the destination map is empty exactly when no square has a legal move, as in checkmate or stalemate |
| `FrontendUtil.DestsDependOnMovesOnly` | frontend/src/util.ts:4-15 | the map depends only on the answers to the move query, so a map recomputed after a move reflects only the new position |
| `FrontendUtil.DestsBounded` | frontend/src/util.ts:6-12 | each key has as many destinations as legal moves from that square, and there are at most 64 keys |
| `FrontendUtil.ToColor` | frontend/src/util.ts:17-19 | the colour is "white" exactly when `turn()` is "w", and "black" exactly when it is "b" |
| `FrontendUtil.ToColorBijective` | frontend/src/util.ts:18 | two views get the same colour exactly when they have the same turn marker, and the colour's initial is the marker |

## Left out

- The chess rules, FEN parsing and rendering, move-text parsing and search of `chess_engine`. These are uninterpreted fields of `ChessEngine.Oracle`, and nothing is assumed about them.
- The timer and move-count arguments of `Game::from_fen(_, None, None)` and `to_fen(0, 0)`. They are fixed in the source and dropped here.
- The score and node count that `get_best_next_move` returns beside the move. The guests discard them too.
- The panic message text (`"Illegal move: {}"`). The model keeps the illegal move in the panic reason.
- Reading stdin, the `println!` of the input bytes, ABI decoding of the parameters (`decode_params`, `EthParams`), and ABI encoding of the journal (`ethabi::encode`, `commit_slice`). These are I/O and foreign library code. `Respond` starts from the decoded strings and ends with the journal values. In both guests a decoding failure panics (the fibonacci guest's `unwrap_or_else(panic!)`, the chess guest's `unwrap` inside `EthParams::from_parameter` in risc0-alloy/src/lib.rs); decoding is not part of this model.
- chess.js legality and `turn()`. They are the uninterpreted fields of `FrontendUtil.ChessView`. The fields of a verbose move other than `from` and `to` are not modelled.
- `toDests` returns a fresh JavaScript `Map` and only queries the engine. The model works on values, so "the engine is not changed" holds because `ToDests` has no `modifies` clause. Object identity of the returned map is not modelled, nor is the key order of the JavaScript `Map` (insertion order, that is `SQUARES` order): a Dafny `map` has no order. chessground only looks keys up.
- frontend/src/main.ts (snabbdom rendering, chessground setup, the orientation button, the global debug handle). This is UI glue, and `aiPlay`, which it imports, is not defined in any file of the repository modelled here.
- frontend/rollup.config.mjs and risc0-alloy/src/lib.rs. These are bundler configuration, and stdin/ABI wrappers over alloy, with no logic of their own.
- None of the files modelled here reads the engine text (the application contract that receives the journal is not part of this model): frontend/src/main.ts:28-30 is a commented-out stub for the contract's `BoardUpdated` event. `ChessGuest.CompactSquares` states what a reader that splits off the first four characters could rely on.
- `ChessGuest.FormatMoveShapes`: states the castle and resign texts in one direction only. With abstract square strings, `Piece("O-", "O")` also formats as `O-O`. `ChessGuest.FormatMoveInjective` gives the converse for well-formed moves.
