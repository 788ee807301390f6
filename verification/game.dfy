/**
  The persisted game record and its read projection
  (the `gameState` object and `sanitizeGameState` in website/backend/server.js).
 */
module GameRecord {
  import opened Basics
  import opened ChessEngine

  datatype Status = InProgress | Checkmate | Stalemate | Draw | Resignation

  /** The `winner` field when it is not null: "white", "black" or "draw". */
  datatype Winner = Won(side: Color) | Drawn

  /** One entry of `history`; `at` is the millisecond clock reading taken
      when the move was stored. */
  datatype HistoryEntry = HistoryEntry(
    san: string,
    from: string,
    to: string,
    color: Color,
    piece: string,
    captured: Option<string>,
    fen: string,
    at: int)

  /** A game record. `writeToken` is optional because the projection sent to
      clients drops it. */
  datatype Game = Game(
    id: string,
    players: (string, string),
    fen: string,
    status: Status,
    winner: Option<Winner>,
    turn: Color,
    lastMove: Option<Squares>,
    history: seq<HistoryEntry>,
    writeToken: Option<string>)

  /** The record invariant: a game has a winner exactly when it is over. */
  predicate StatusAgrees(g: Game) {
    g.status == InProgress <==> g.winner.None?
  }

  /** `sanitizeGameState(g, { includeToken })`: a copy of the record that
      keeps the write token only when the caller asks for it. */
  function Sanitize(g: Game, includeToken: bool): (v: Game)
    ensures includeToken ==> v == g
    ensures !includeToken ==> v.writeToken == None
    ensures v.(writeToken := g.writeToken) == g
  {
    if includeToken then g else g.(writeToken := None)
  }

  /** A projection without the token carries no secret however often it is
      projected again, and keeps everything else the record says. */
  lemma SanitizeIdempotent(g: Game, includeToken: bool)
    ensures Sanitize(Sanitize(g, false), includeToken) == Sanitize(g, false)
    ensures StatusAgrees(Sanitize(g, includeToken)) <==> StatusAgrees(g)
  {
  }
}
