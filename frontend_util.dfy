/** The front end's adapters from the chess.js rules engine to the chessground
    board widget: the origin-to-destinations map and the side-to-move colour.

    The rules engine is seen through a `ChessView`: its verbose legal-move
    query per square and its side-to-move marker, both uninterpreted. */
module FrontendUtil {

  /** A chessground square key, such as "e2". */
  type Key = string

  /** chess.js's side-to-move marker. */
  type Turn = t: string | t == "w" || t == "b" witness "w"

  /** chessground's colour. */
  type Color = c: string | c == "white" || c == "black" witness "white"

  /** A verbose chess.js move; the other fields of the record are not used. */
  datatype VerboseMove = VerboseMove(from: Key, to: Key)

  /** What the adapters read of a chess.js instance: `moves({square, verbose: true})`
      and `turn()`. */
  datatype ChessView = ChessView(moves: Key -> seq<VerboseMove>, turn: Turn)

  /** The file letter of the `i`-th square of `Squares`. */
  function FileOf(i: nat): char
    requires i < 64
  {
    ('a' as int + i % 8) as char
  }

  /** The rank digit of the `i`-th square of `Squares`. */
  function RankOf(i: nat): char
    requires i < 64
  {
    ('8' as int - i / 8) as char
  }

  /** chess.js's `SQUARES`: a8, b8, ..., h8, a7, ..., h1. */
  const Squares: seq<Key> := seq(64, i requires 0 <= i < 64 => [FileOf(i), RankOf(i)])

  /** `ms.map((m) => m.to)`: the destinations of the moves, in order. */
  function Targets(ms: seq<VerboseMove>): (r: seq<Key>)
    ensures |r| == |ms|
    ensures forall i :: 0 <= i < |ms| ==> r[i] == ms[i].to
  {
    if ms == [] then [] else [ms[0].to] + Targets(ms[1..])
  }

  /** The destination map that `toDests` builds, as a value: every square with
      at least one legal move, mapped to its destinations. */
  ghost function DestinationMap(chess: ChessView): map<Key, seq<Key>>
  {
    map s | s in Squares && chess.moves(s) != [] :: Targets(chess.moves(s))
  }

  /** `toDests`: walk `Squares` in order, query the legal moves from each, and
      record the square's destinations when there is at least one. */
  method ToDests(chess: ChessView) returns (dests: map<Key, seq<Key>>)
    ensures forall k :: k in dests ==> k in Squares
    ensures forall k :: k in dests ==> dests[k] != []
    ensures forall s :: s in Squares && chess.moves(s) != [] ==> s in dests
    ensures forall k :: k in dests ==> dests[k] == Targets(chess.moves(k))
    ensures dests == DestinationMap(chess)
  {
    dests := map[];
    var i := 0;
    while i < |Squares|
      invariant 0 <= i <= |Squares|
      invariant forall k :: k in dests ==> k in Squares[..i] && chess.moves(k) != []
      invariant forall k :: k in dests ==> dests[k] == Targets(chess.moves(k))
      invariant forall j :: 0 <= j < i && chess.moves(Squares[j]) != [] ==> Squares[j] in dests
    {
      var s := Squares[i];
      var ms := chess.moves(s);
      if |ms| != 0 {
        dests := dests[s := Targets(ms)];
      }
      i := i + 1;
    }
    assert Squares[..i] == Squares;
    assert forall s :: s in Squares ==> exists j :: 0 <= j < |Squares| && Squares[j] == s;
  }

  /** `toColor`: "white" exactly when chess.js says white is to move. */
  function ToColor(chess: ChessView): (c: Color)
    ensures c == "white" <==> chess.turn == "w"
    ensures c == "black" <==> chess.turn == "b"
  {
    if chess.turn == "w" then "white" else "black"
  }

  /** A position in which no square has a legal move (checkmate or stalemate)
      has an empty destination map, and only such a position has one. */
  lemma NoMovesNoDests(chess: ChessView)
    ensures DestinationMap(chess) == map[] <==> forall s :: s in Squares ==> chess.moves(s) == []
  {
    forall s | s in Squares && chess.moves(s) != []
      ensures s in DestinationMap(chess)
    {
    }
  }

  /** The destination map is determined by the legal-move query alone: two
      engine states that answer the query alike on every square give the same
      map, so a map recomputed after a move depends only on the new position. */
  lemma DestsDependOnMovesOnly(c1: ChessView, c2: ChessView)
    requires forall s :: s in Squares ==> c1.moves(s) == c2.moves(s)
    ensures DestinationMap(c1) == DestinationMap(c2)
  {
  }

  /** Every key of the destination map has as many destinations as legal moves,
      and there are at most 64 keys. */
  lemma DestsBounded(chess: ChessView)
    ensures forall k :: k in DestinationMap(chess) ==> |DestinationMap(chess)[k]| == |chess.moves(k)|
    ensures |DestinationMap(chess)| <= 64
  {
    var keys := DestinationMap(chess).Keys;
    ElementsBound(Squares);
    assert keys <= set s | s in Squares;
    SubsetBound(keys, set s | s in Squares);
  }

  /** A sequence has at most as many distinct elements as it is long. */
  lemma {:induction false} ElementsBound(xs: seq<Key>)
    ensures |set s | s in xs| <= |xs|
  {
    if xs != [] {
      ElementsBound(xs[1..]);
      assert (set s | s in xs) == (set s | s in xs[1..]) + {xs[0]};
    }
  }

  /** A subset is no larger than its superset. */
  lemma {:induction false} SubsetBound(a: set<Key>, b: set<Key>)
    requires a <= b
    ensures |a| <= |b|
  {
    if a != {} {
      var x :| x in a;
      SubsetBound(a - {x}, b - {x});
    }
  }

  /** The turn colour is a faithful two-valued mapping: each marker has its own
      colour, and the colour read the other way gives the marker back. */
  lemma ToColorBijective(c1: ChessView, c2: ChessView)
    ensures ToColor(c1) == ToColor(c2) <==> c1.turn == c2.turn
    ensures ToColor(c1)[0] == c1.turn[0]
  {
  }
}
