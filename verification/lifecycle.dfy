/**
  The record invariants and how every transition keeps them: a game has a
  winner exactly when it is over, and (for a lawful engine) the stored side to
  move is the one the stored FEN names. Also a replay of any sequence of
  requests against one record.
 */
module Lifecycle {
  import opened Basics
  import opened JsValues
  import opened Validation
  import opened ChessEngine
  import opened GameRecord
  import opened Authorization
  import opened Transitions

  /** The stored `turn` agrees with the side to move of the stored FEN. */
  ghost predicate TurnMatchesFen<P>(eng: Engine<P>, g: Game) {
    g.turn == eng.turn(eng.load(g.fen))
  }

  ghost predicate WellFormed<P>(eng: Engine<P>, g: Game) {
    StatusAgrees(g) && TurnMatchesFen(eng, g)
  }

  /** A new game satisfies both invariants. */
  lemma NewGameWellFormed<P(!new)>(eng: Engine<P>, player1: JsValue, player2: JsValue, idUuid: string, tokenUuid: string)
    requires Lawful(eng)
    requires NewGame(eng, player1, player2, idUuid, tokenUuid).Ok?
    ensures WellFormed(eng, NewGame(eng, player1, player2, idUuid, tokenUuid).value)
  {
    assert eng.turn(eng.load(eng.fen(eng.start))) == eng.turn(eng.start);
  }

  /** A move keeps a game's winner in step with its status. */
  lemma ApplyMoveKeepsStatusAgreement<P>(eng: Engine<P>, g: Game, req: Request, move: JsValue, now: int)
    requires StatusAgrees(g)
    requires ApplyMove(eng, Some(g), req, move, now).Ok?
    ensures StatusAgrees(ApplyMove(eng, Some(g), req, move, now).value)
  {
  }

  /** The engine's answer is computed from the stored FEN alone: a move it
      plays from the stored position is the stored side's move, and the
      position it leaves has the other side to move. */
  lemma AttemptedFromStoredPosition<P(!new)>(eng: Engine<P>, g: Game, g': Game, text: string)
    requires g'.fen == g.fen
    ensures Attempted(eng, g', text) == Attempted(eng, g, text)
    ensures Lawful(eng) && TurnMatchesFen(eng, g) && Attempted(eng, g, text).Played?
      ==> eng.turn(Attempted(eng, g, text).after) == Opposite(g.turn)
  {
  }

  /** A lawful engine hands the turn over on every applied move, and the
      stored turn keeps matching the stored FEN. */
  lemma ApplyMoveHandsOverTurn<P(!new)>(eng: Engine<P>, g: Game, req: Request, move: JsValue, now: int)
    requires Lawful(eng) && TurnMatchesFen(eng, g)
    requires ApplyMove(eng, Some(g), req, move, now).Ok?
    ensures ApplyMove(eng, Some(g), req, move, now).value.turn == Opposite(g.turn)
    ensures TurnMatchesFen(eng, ApplyMove(eng, Some(g), req, move, now).value)
  {
    var text := ValidateMoveFormat(move).value;
    var a := Attempted(eng, g, text);
    assert eng.move(eng.load(g.fen), text).Played?;
    assert eng.turn(eng.load(eng.fen(a.after))) == eng.turn(a.after);
  }

  /** Checkmate is credited to the side that made the mating move. */
  lemma MateCreditsMover<P(!new)>(eng: Engine<P>, g: Game, req: Request, move: JsValue, now: int)
    requires Lawful(eng) && TurnMatchesFen(eng, g)
    requires ApplyMove(eng, Some(g), req, move, now).Ok?
    requires ApplyMove(eng, Some(g), req, move, now).value.status == Checkmate
    ensures ApplyMove(eng, Some(g), req, move, now).value.winner == Some(Won(g.turn))
  {
    var text := ValidateMoveFormat(move).value;
    var a := Attempted(eng, g, text);
    assert eng.move(eng.load(g.fen), text).Played?;
  }

  /** Resignation ends the game with a winner, leaving the position alone. */
  lemma ResignKeepsInvariants<P>(eng: Engine<P>, g: Game, req: Request)
    requires WellFormed(eng, g)
    requires Resign(Some(g), req).Ok?
    ensures WellFormed(eng, Resign(Some(g), req).value)
  {
  }

  /** A take-back always leaves a game in progress without a winner. */
  lemma UndoKeepsInvariants<P(!new)>(eng: Engine<P>, g: Game, req: Request)
    requires StatusAgrees(g)
    requires Undo(eng, Some(g), req).Ok?
    ensures Undo(eng, Some(g), req).value.status == InProgress
    ensures Undo(eng, Some(g), req).value.winner == None
    ensures FenKeepsTurn(eng) ==> TurnMatchesFen(eng, Undo(eng, Some(g), req).value)
  {
    var back := eng.undo(eng.load(g.fen)).value;
    assert FenKeepsTurn(eng) ==> eng.turn(eng.load(eng.fen(back))) == eng.turn(back);
  }

  // ---------------------------------------------------------------------------
  // Replaying requests against one record
  // ---------------------------------------------------------------------------

  /** A write request against the record. */
  datatype Command = PlayMove(move: JsValue, now: int) | GiveUp | TakeBack

  function Step<P>(eng: Engine<P>, g: Game, req: Request, cmd: Command): Result<Game, Rejection> {
    match cmd
    case PlayMove(move, now) => ApplyMove(eng, Some(g), req, move, now)
    case GiveUp => Resign(Some(g), req)
    case TakeBack => Undo(eng, Some(g), req)
  }

  /** The record after a sequence of requests; a refused request leaves it as
      it was, as the handlers store nothing when they refuse. */
  function Replay<P>(eng: Engine<P>, g: Game, script: seq<(Request, Command)>): Game
    decreases |script|
  {
    if script == [] then g
    else
      var r := Step(eng, g, script[0].0, script[0].1);
      Replay(eng, if r.Ok? then r.value else g, script[1..])
  }

  lemma StepKeepsInvariants<P(!new)>(eng: Engine<P>, g: Game, req: Request, cmd: Command)
    requires Lawful(eng) && WellFormed(eng, g)
    requires Step(eng, g, req, cmd).Ok?
    ensures WellFormed(eng, Step(eng, g, req, cmd).value)
    ensures Step(eng, g, req, cmd).value.id == g.id
    ensures Step(eng, g, req, cmd).value.players == g.players
    ensures Step(eng, g, req, cmd).value.writeToken == g.writeToken
  {
    match cmd
    case PlayMove(move, now) =>
      ApplyMoveKeepsStatusAgreement(eng, g, req, move, now);
      ApplyMoveHandsOverTurn(eng, g, req, move, now);
    case GiveUp =>
      ResignKeepsInvariants(eng, g, req);
    case TakeBack =>
      UndoKeepsInvariants(eng, g, req);
  }

  /** Whatever requests arrive, a game stays well formed and keeps its id,
      its players and its write token. */
  lemma {:induction false} ReplayKeepsInvariants<P(!new)>(eng: Engine<P>, g: Game, script: seq<(Request, Command)>)
    requires Lawful(eng) && WellFormed(eng, g)
    ensures WellFormed(eng, Replay(eng, g, script))
    ensures Replay(eng, g, script).id == g.id
    ensures Replay(eng, g, script).players == g.players
    ensures Replay(eng, g, script).writeToken == g.writeToken
    decreases |script|
  {
    if script != [] {
      var r := Step(eng, g, script[0].0, script[0].1);
      if r.Ok? {
        StepKeepsInvariants(eng, g, script[0].0, script[0].1);
      }
      ReplayKeepsInvariants(eng, if r.Ok? then r.value else g, script[1..]);
    }
  }

  /** An ended game refuses every move and every resignation, whatever is
      asked, until a take-back reopens it. */
  lemma EndedGameOnlyUndoes<P>(eng: Engine<P>, g: Game, req: Request, cmd: Command)
    requires g.status != InProgress
    requires Step(eng, g, req, cmd).Ok?
    ensures cmd.TakeBack?
    ensures Step(eng, g, req, cmd).value.status == InProgress
  {
  }
}
