/**
  The HTTP handlers around the transitions, over an abstract key-value store
  of records and the single current-game id: what each request answers
  and what it leaves stored. A store write or delete that fails is an input
  (`persisted`, `deleted`); the clock reading, the two UUIDs and the request
  contents are inputs too.
 */
module Backend {
  import opened Basics
  import opened JsValues
  import opened ChessEngine
  import opened GameRecord
  import opened Authorization
  import opened Transitions
  import Lifecycle

  /** The records by game id, and the id polling clients display. */
  datatype Store = Store(games: map<string, Game>, current: Option<string>)

  /** A JSON response body: a (projected) record, `{ message }`, or
      `{ status: 'welcome' }` with an optional `error`. */
  datatype Body = GameBody(game: Game) | MessageBody(message: string) | WelcomeBody(error: Option<string>)

  datatype Response = Response(code: nat, body: Body)

  /** A handler's answer together with the store it leaves. */
  datatype Reply = Reply(response: Response, store: Store)

  /** `fetchGameState(id)`: the record, or null when there is none. */
  function Fetch(s: Store, id: string): (g: Option<Game>)
    ensures g.Some? <==> id in s.games
    ensures g.Some? ==> g.value == s.games[id]
  {
    if id in s.games then Some(s.games[id]) else None
  }

  function Refuse(e: Rejection): Response {
    Response(StatusCode(e), MessageBody(Message(e)))
  }

  const PersistFailed: Response := Response(500, MessageBody("Failed to persist game state"))

  /** True when no record in the response carries a write token. */
  predicate Tokenless(r: Response) {
    r.body.GameBody? ==> r.body.game.writeToken.None?
  }

  /** Store the record a write handler produced under `id`, point the current
      game at it and answer with its projection; a refusal or a failed store
      write changes nothing. */
  function Commit(s: Store, id: string, result: Result<Game, Rejection>, persisted: bool): (r: Reply)
    ensures result.Err? ==> r == Reply(Refuse(result.error), s)
    ensures result.Ok? && !persisted ==> r == Reply(PersistFailed, s)
    ensures result.Ok? && persisted ==>
              && r.store.games == s.games[id := result.value]
              && r.store.current == Some(id)
              && r.response == Response(200, GameBody(Sanitize(result.value, false)))
    ensures Tokenless(r.response)
  {
    match result
    case Err(e) => Reply(Refuse(e), s)
    case Ok(g) =>
      if !persisted then Reply(PersistFailed, s)
      else Reply(Response(200, GameBody(Sanitize(g, false))), Store(s.games[id := g], Some(id)))
  }

  /** POST /api/games. The only response that carries the write token. */
  function CreateGame<P>(eng: Engine<P>, s: Store, player1: JsValue, player2: JsValue,
                         idUuid: string, tokenUuid: string, persisted: bool): (r: Reply)
    ensures NewGame(eng, player1, player2, idUuid, tokenUuid).Err? ==>
              r == Reply(Refuse(NewGame(eng, player1, player2, idUuid, tokenUuid).error), s)
    ensures r.store != s ==> persisted && NewGame(eng, player1, player2, idUuid, tokenUuid).Ok?
    ensures r.response.code == 201 <==> persisted && NewGame(eng, player1, player2, idUuid, tokenUuid).Ok?
    ensures r.response.code == 201 ==>
              var g := NewGame(eng, player1, player2, idUuid, tokenUuid).value;
              && r.response.body == GameBody(g)
              && g.writeToken.Some?
              && r.store == Store(s.games[g.id := g], Some(g.id))
    ensures NewGame(eng, player1, player2, idUuid, tokenUuid).Ok? && !persisted ==> r == Reply(PersistFailed, s)
  {
    match NewGame(eng, player1, player2, idUuid, tokenUuid)
    case Err(e) => Reply(Refuse(e), s)
    case Ok(g) =>
      if !persisted then Reply(PersistFailed, s)
      else Reply(Response(201, GameBody(Sanitize(g, true))), Store(s.games[g.id := g], Some(g.id)))
  }

  /** GET /api/games/:gameId. */
  function GetGame(s: Store, id: string): (r: Response)
    ensures r.code == 404 <==> id !in s.games
    ensures id !in s.games ==> r == Refuse(GameNotFound)
    ensures id in s.games ==> r == Response(200, GameBody(Sanitize(s.games[id], false)))
    ensures Tokenless(r)
  {
    match Fetch(s, id)
    case None => Refuse(GameNotFound)
    case Some(g) => Response(200, GameBody(Sanitize(g, false)))
  }

  /** GET /api/trmnl-state: the current game's projection, or the welcome
      screen when there is no current game or its record is gone. */
  function PollState(s: Store): (r: Response)
    ensures r.code == 200 && Tokenless(r)
    ensures r.body.GameBody? <==> s.current.Some? && s.current.value != "" && s.current.value in s.games
    ensures r.body.GameBody? ==> r.body.game == Sanitize(s.games[s.current.value], false)
    ensures s.current.None? || s.current.value == "" ==> r == Response(200, WelcomeBody(None))
    ensures s.current.Some? && s.current.value != "" && s.current.value !in s.games
      ==> r == Response(200, WelcomeBody(Some("Game not found in Redis")))
  {
    if s.current.None? || s.current.value == "" then Response(200, WelcomeBody(None))
    else
      match Fetch(s, s.current.value)
      case None => Response(200, WelcomeBody(Some("Game not found in Redis")))
      case Some(g) => Response(200, GameBody(Sanitize(g, false)))
  }

  /** POST /api/games/:gameId/moves. */
  function MakeMove<P>(eng: Engine<P>, s: Store, id: string, req: Request, move: JsValue, now: int, persisted: bool)
    : (r: Reply)
    ensures ApplyMove(eng, Fetch(s, id), req, move, now).Err? ==> r == Reply(Refuse(ApplyMove(eng, Fetch(s, id), req, move, now).error), s)
    ensures r.store != s ==> persisted && ApplyMove(eng, Fetch(s, id), req, move, now).Ok?
    ensures r.store != s ==> r.store == Store(s.games[id := ApplyMove(eng, Fetch(s, id), req, move, now).value], Some(id))
    ensures r.store != s ==> AuthorizeGameWrite(req, Fetch(s, id)) && persisted
    ensures var t := ApplyMove(eng, Fetch(s, id), req, move, now);
            t.Ok? && persisted ==>
              && r.store == Store(s.games[id := t.value], Some(id))
              && r.response == Response(200, GameBody(Sanitize(t.value, false)))
    ensures ApplyMove(eng, Fetch(s, id), req, move, now).Ok? && !persisted ==> r == Reply(PersistFailed, s)
    ensures Tokenless(r.response)
  {
    Commit(s, id, ApplyMove(eng, Fetch(s, id), req, move, now), persisted)
  }

  /** POST /api/games/:gameId/resign. */
  function ResignGame(s: Store, id: string, req: Request, persisted: bool): (r: Reply)
    ensures Resign(Fetch(s, id), req).Err? ==> r == Reply(Refuse(Resign(Fetch(s, id), req).error), s)
    ensures r.store != s ==> persisted && Resign(Fetch(s, id), req).Ok?
    ensures r.store != s ==> r.store == Store(s.games[id := Resign(Fetch(s, id), req).value], Some(id))
    ensures r.store != s ==> AuthorizeGameWrite(req, Fetch(s, id)) && persisted
    ensures var t := Resign(Fetch(s, id), req);
            t.Ok? && persisted ==>
              && r.store == Store(s.games[id := t.value], Some(id))
              && r.response == Response(200, GameBody(Sanitize(t.value, false)))
    ensures Resign(Fetch(s, id), req).Ok? && !persisted ==> r == Reply(PersistFailed, s)
    ensures Tokenless(r.response)
  {
    Commit(s, id, Resign(Fetch(s, id), req), persisted)
  }

  /** POST /api/games/:gameId/undo. */
  function UndoMove<P>(eng: Engine<P>, s: Store, id: string, req: Request, persisted: bool): (r: Reply)
    ensures Undo(eng, Fetch(s, id), req).Err? ==> r == Reply(Refuse(Undo(eng, Fetch(s, id), req).error), s)
    ensures r.store != s ==> persisted && Undo(eng, Fetch(s, id), req).Ok?
    ensures r.store != s ==> r.store == Store(s.games[id := Undo(eng, Fetch(s, id), req).value], Some(id))
    ensures r.store != s ==> AuthorizeGameWrite(req, Fetch(s, id)) && persisted
    ensures var t := Undo(eng, Fetch(s, id), req);
            t.Ok? && persisted ==>
              && r.store == Store(s.games[id := t.value], Some(id))
              && r.response == Response(200, GameBody(Sanitize(t.value, false)))
    ensures Undo(eng, Fetch(s, id), req).Ok? && !persisted ==> r == Reply(PersistFailed, s)
    ensures Tokenless(r.response)
  {
    Commit(s, id, Undo(eng, Fetch(s, id), req), persisted)
  }

  /** POST /api/reset-current: with the current game's token, delete that
      game and clear the current-game id. */
  function ResetCurrent(s: Store, req: Request, deleted: bool): (r: Reply)
    ensures s.current.None? || s.current.value == "" ==> r == Reply(Response(200, WelcomeBody(None)), s)
    ensures r.store != s ==>
              && s.current.Some?
              && AuthorizeGameWrite(req, Fetch(s, s.current.value))
              && deleted
              && r.store == Store(s.games - {s.current.value}, None)
    ensures s.current.Some? && s.current.value != "" && !AuthorizeGameWrite(req, Fetch(s, s.current.value)) ==>
              r == Reply(Refuse(Unauthorized), s)
    ensures s.current.Some? && s.current.value != "" && AuthorizeGameWrite(req, Fetch(s, s.current.value)) ==>
              r == if deleted then Reply(Response(200, WelcomeBody(None)), Store(s.games - {s.current.value}, None))
                   else Reply(Response(500, MessageBody("Failed to reset current game")), s)
    ensures Tokenless(r.response)
  {
    if s.current.None? || s.current.value == "" then Reply(Response(200, WelcomeBody(None)), s)
    else
      var id := s.current.value;
      if !AuthorizeGameWrite(req, Fetch(s, id)) then Reply(Refuse(Unauthorized), s)
      else if !deleted then Reply(Response(500, MessageBody("Failed to reset current game")), s)
      else Reply(Response(200, WelcomeBody(None)), Store(s.games - {id}, None))
  }

  // ---------------------------------------------------------------------------
  // Store-wide properties
  // ---------------------------------------------------------------------------

  /** Every stored record has a winner exactly when it is over. */
  predicate StoreAgrees(s: Store) {
    forall id :: id in s.games ==> StatusAgrees(s.games[id])
  }

  /** A request to the store, as the HTTP layer receives it. */
  datatype Call =
    | PostGame(player1: JsValue, player2: JsValue, idUuid: string, tokenUuid: string)
    | PostMove(moveId: string, moveReq: Request, move: JsValue, now: int)
    | PostResign(resignId: string, resignReq: Request)
    | PostUndo(undoId: string, undoReq: Request)
    | PostReset(resetReq: Request)

  function Handle<P>(eng: Engine<P>, s: Store, c: Call, ok: bool): Reply {
    match c
    case PostGame(p1, p2, u1, u2) => CreateGame(eng, s, p1, p2, u1, u2, ok)
    case PostMove(id, req, move, now) => MakeMove(eng, s, id, req, move, now, ok)
    case PostResign(id, req) => ResignGame(s, id, req, ok)
    case PostUndo(id, req) => UndoMove(eng, s, id, req, ok)
    case PostReset(req) => ResetCurrent(s, req, ok)
  }

  /** Every handler keeps every stored record's winner in step with its
      status, and only game creation ever answers with a write token. */
  lemma HandleKeepsStoreAgreement<P(!new)>(eng: Engine<P>, s: Store, c: Call, ok: bool)
    requires StoreAgrees(s)
    ensures StoreAgrees(Handle(eng, s, c, ok).store)
    ensures !c.PostGame? ==> Tokenless(Handle(eng, s, c, ok).response)
  {
    match c
    case PostGame(p1, p2, u1, u2) =>
    case PostMove(id, req, move, now) =>
      var r := ApplyMove(eng, Fetch(s, id), req, move, now);
      if r.Ok? {
        Lifecycle.ApplyMoveKeepsStatusAgreement(eng, s.games[id], req, move, now);
      }
    case PostResign(id, req) =>
    case PostUndo(id, req) =>
      var r := Undo(eng, Fetch(s, id), req);
      if r.Ok? {
        Lifecycle.UndoKeepsInvariants(eng, s.games[id], req);
      }
    case PostReset(req) =>
  }

  /** The store after a sequence of requests, each paired with whether its
      store write or delete succeeds. */
  function Serve<P>(eng: Engine<P>, s: Store, calls: seq<(Call, bool)>): Store
    decreases |calls|
  {
    if calls == [] then s
    else Serve(eng, Handle(eng, s, calls[0].0, calls[0].1).store, calls[1..])
  }

  /** No sequence of requests, whichever store writes fail, leaves an
      inconsistent record behind. */
  lemma {:induction false} ServeKeepsStoreAgreement<P(!new)>(eng: Engine<P>, s: Store, calls: seq<(Call, bool)>)
    requires StoreAgrees(s)
    ensures StoreAgrees(Serve(eng, s, calls))
    decreases |calls|
  {
    if calls != [] {
      HandleKeepsStoreAgreement(eng, s, calls[0].0, calls[0].1);
      ServeKeepsStoreAgreement(eng, Handle(eng, s, calls[0].0, calls[0].1).store, calls[1..]);
    }
  }
}
