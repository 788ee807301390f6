/**
  The chess rules engine (chess.js) as the backend uses it, kept abstract: an
  `Engine<P>` is any collection of functions over an opaque engine position
  `P`. The handlers build a position from a stored FEN string, try one move or
  one take-back on it, and read the FEN, the side to move, the game-over
  classification and the verbose move list back from it.
 */
module ChessEngine {
  import opened Basics

  datatype Color = White | Black

  function Opposite(c: Color): (o: Color)
    ensures o != c
  {
    match c
    case White => Black
    case Black => White
  }

  /** A move's origin and destination squares, as in `lastMove`. */
  datatype Squares = Squares(from: string, to: string)

  /** The verbose move object `chess.move` returns. `captured` is the taken
      piece, absent when nothing was taken. */
  datatype MoveResult = MoveResult(
    san: string,
    from: string,
    to: string,
    color: Color,
    piece: string,
    captured: Option<string>)

  /** The three ways `chess.move(text, { sloppy: true })` can end. */
  datatype Attempt<P> =
    | Threw            // the engine raised an exception
    | Refused          // the engine returned null
    | Played(result: MoveResult, after: P)

  /** The engine operations the handlers call. */
  datatype Engine<!P> = Engine(
    start: P,                            // new Chess()
    load: string -> P,                   // new Chess(fen)
    fen: P -> string,                    // chess.fen()
    turn: P -> Color,                    // chess.turn()
    move: (P, string) -> Attempt<P>,     // chess.move(text, { sloppy: true })
    isGameOver: P -> bool,               // chess.isGameOver()
    isCheckmate: P -> bool,              // chess.isCheckmate()
    isStalemate: P -> bool,              // chess.isStalemate()
    undo: P -> Option<P>,                // chess.undo(): null, or the position it leaves
    history: P -> seq<Squares>)          // chess.history({ verbose: true }), squares only

  /** A FEN string records the side to move: reloading a position's FEN gives
      a position with the same side to move. */
  ghost predicate FenKeepsTurn<P(!new)>(eng: Engine<P>) {
    forall p :: eng.turn(eng.load(eng.fen(p))) == eng.turn(p)
  }

  /** Every applied move hands the turn to the other side. */
  ghost predicate MovesAlternate<P(!new)>(eng: Engine<P>) {
    forall p, m :: eng.move(p, m).Played? ==> eng.turn(eng.move(p, m).after) == Opposite(eng.turn(p))
  }

  /** The laws of a real chess engine that the model's turn bookkeeping relies on. */
  ghost predicate Lawful<P(!new)>(eng: Engine<P>) {
    && FenKeepsTurn(eng)
    && MovesAlternate(eng)
    && eng.turn(eng.start) == White
  }
}
