/**
  The state transitions of one game record: creation, a move, resignation and
  take-back, as the POST handlers of website/backend/server.js perform them
  between loading the record and storing it again. Each returns the new record
  or the reason the request is refused; the refusal reasons are checked in the
  handlers' order, so the first applicable one is the one reported.
 */
module Transitions {
  import opened Basics
  import opened JsValues
  import opened JsStrings
  import opened Validation
  import opened ChessEngine
  import opened GameRecord
  import opened Authorization

  /** Which of the two names at creation a refusal is about. */
  datatype Seat = PlayerOne | PlayerTwo

  /** Why a request is refused. */
  datatype Rejection =
    | GameNotFound
    | Unauthorized
    | GameIsOver                          // refusal of a move
    | GameAlreadyOver                     // refusal of a resignation
    | BadPlayerName(player: Seat, nameError: NameError)
    | BadMoveText(moveError: MoveFormatError)
    | EngineThrew                         // chess.move raised an exception
    | IllegalMove                         // chess.move returned null
    | NothingToUndo

  /** The HTTP status each refusal is answered with. */
  function StatusCode(e: Rejection): (code: nat)
    ensures code == 404 <==> e == GameNotFound
    ensures code == 401 <==> e == Unauthorized
    ensures code == 400 <==> !(e == GameNotFound || e == Unauthorized)
  {
    match e
    case GameNotFound => 404
    case Unauthorized => 401
    case _ => 400
  }

  /** The `message` of each refusal. */
  function Message(e: Rejection): string {
    match e
    case GameNotFound => "Game not found"
    case Unauthorized => "Missing or invalid game token"
    case GameIsOver => "Game is over."
    case GameAlreadyOver => "Game is already over"
    case BadPlayerName(seat, reason) =>
      (if seat == PlayerOne then "Player 1: " else "Player 2: ") + NameErrorText(reason)
    case BadMoveText(reason) => MoveFormatErrorText(reason)
    case EngineThrew => "Invalid move format."
    case IllegalMove => "Illegal move."
    case NothingToUndo => "No moves to undo"
  }

  /** Every refusal has its own message, so a client can tell them apart by
      the message alone. */
  lemma MessageIdentifiesRefusal(e1: Rejection, e2: Rejection)
    requires Message(e1) == Message(e2)
    ensures e1 == e2
  {
    MessageShape(e1);
    MessageShape(e2);
    if e1.BadPlayerName? && e2.BadPlayerName? {
      assert Message(e1)[10..] == NameErrorText(e1.nameError);
      assert Message(e2)[10..] == NameErrorText(e2.nameError);
      NameErrorTextInjective(e1.nameError, e2.nameError);
    }
  }

  /** Length, first character and (for name refusals) the player digit of
      each message: together they separate all refusals. */
  lemma MessageShape(e: Rejection)
    ensures e.GameNotFound? ==> |Message(e)| == 14
    ensures e.Unauthorized? ==> |Message(e)| == 29
    ensures e.GameIsOver? ==> |Message(e)| == 13 && Message(e)[0] == 'G'
    ensures e.GameAlreadyOver? ==> |Message(e)| == 20 && Message(e)[0] == 'G'
    ensures e.BadPlayerName? ==> |Message(e)| >= 33 && Message(e)[0] == 'P' && Message(e)[1] == 'l'
                                 && Message(e)[7] == (if e.player == PlayerOne then '1' else '2')
    ensures e == BadMoveText(MoveRequired) ==> |Message(e)| == 16 && Message(e)[0] == 'M'
    ensures e == BadMoveText(MoveMalformed) ==> |Message(e)| == 43 && Message(e)[0] == 'I'
    ensures e.EngineThrew? ==> |Message(e)| == 20 && Message(e)[0] == 'I'
    ensures e.IllegalMove? ==> |Message(e)| == 13 && Message(e)[0] == 'I'
    ensures e.NothingToUndo? ==> |Message(e)| == 16 && Message(e)[0] == 'N'
  {
    match e
    case BadMoveText(MoveRequired) =>
      assert Message(e) == "Move is required";
    case BadMoveText(MoveMalformed) =>
      assert Message(e) == "Invalid move format. Use format like \"e2e4\"";
    case BadPlayerName(seat, reason) =>
      var prefix := if seat == PlayerOne then "Player 1: " else "Player 2: ";
      assert Message(e) == prefix + NameErrorText(reason);
      assert Message(e)[7] == prefix[7];
    case _ =>
  }

  // ---------------------------------------------------------------------------
  // Creation
  // ---------------------------------------------------------------------------

  predicate IsHexDigit(c: char) {
    ('0' <= c <= '9') || ('a' <= c <= 'f')
  }

  /** The textual form `crypto.randomUUID()` produces: 36 characters, dashes at
      positions 8, 13, 18 and 23, lower-case hexadecimal digits elsewhere. */
  predicate IsUuid(u: string) {
    && |u| == 36
    && forall k :: 0 <= k < 36 ==>
         if k == 8 || k == 13 || k == 18 || k == 23 then u[k] == '-' else IsHexDigit(u[k])
  }

  predicate IsDash(c: char) {
    c == '-'
  }

  /** `uuid.replace(/-/g, '')`: the write token. Every dash goes and nothing
      else does. */
  function TokenFrom(uuid: string): (t: string)
    ensures |t| <= |uuid|
    ensures forall k :: 0 <= k < |t| ==> t[k] != '-'
    ensures (forall k :: 0 <= k < |uuid| ==> uuid[k] != '-') ==> t == uuid
  {
    Without(uuid, IsDash)
  }

  /** `uuid.replace(/-/g, '').slice(0, 12)`: the game id. */
  function GameIdFrom(uuid: string): (id: string)
    ensures |id| == (if |TokenFrom(uuid)| <= 12 then |TokenFrom(uuid)| else 12)
    ensures id == TokenFrom(uuid)[..|id|]
  {
    var d := TokenFrom(uuid);
    if |d| <= 12 then d else d[..12]
  }

  predicate AllHex(s: string) {
    forall k :: 0 <= k < |s| ==> IsHexDigit(s[k])
  }

  /** Deleting the dashes from `x + "-" + y`, for a group `y` of hex digits. */
  lemma UndashGroup(x: string, y: string)
    requires AllHex(Without(x, IsDash)) && AllHex(y)
    ensures Without(x + "-" + y, IsDash) == Without(x, IsDash) + y
    ensures |Without(x + "-" + y, IsDash)| == |Without(x, IsDash)| + |y|
    ensures AllHex(Without(x + "-" + y, IsDash))
  {
    var w, dash := Without(x, IsDash), "-";
    assert |dash| == 1 && IsDash(dash[0]);
    assert Without(dash, IsDash) == [];
    assert forall k :: 0 <= k < |y| ==> !IsDash(y[k]);
    assert Without(y, IsDash) == y;
    WithoutAppend(x, dash, IsDash);
    WithoutAppend(x + dash, y, IsDash);
    assert w + [] == w;
    forall k | 0 <= k < |w + y|
      ensures IsHexDigit((w + y)[k])
    {
      if k < |w| { assert (w + y)[k] == w[k]; } else { assert (w + y)[k] == y[k - |w|]; }
    }
  }

  /** Ids are 12 and tokens 32 hexadecimal digits. */
  lemma UuidDerivedShapes(u: string)
    requires IsUuid(u)
    ensures TokenFrom(u) == u[..8] + u[9..13] + u[14..18] + u[19..23] + u[24..]
    ensures GameIdFrom(u) == u[..8] + u[9..13]
    ensures |TokenFrom(u)| == 32 && |GameIdFrom(u)| == 12
    ensures AllHex(TokenFrom(u))
  {
    assert Without(u[..8], IsDash) == u[..8];
    assert u[..13] == u[..8] + "-" + u[9..13];
    UndashGroup(u[..8], u[9..13]);
    assert u[..18] == u[..13] + "-" + u[14..18];
    UndashGroup(u[..13], u[14..18]);
    assert u[..23] == u[..18] + "-" + u[19..23];
    UndashGroup(u[..18], u[19..23]);
    assert u == u[..23] + "-" + u[24..];
    UndashGroup(u[..23], u[24..]);
    var t := u[..8] + u[9..13] + u[14..18] + u[19..23] + u[24..];
    assert TokenFrom(u) == t;
    assert t[..12] == u[..8] + u[9..13];
  }

  /** The create handler's record: both names validated (player 1 first),
      the engine's starting position, white to move, no moves, a fresh token. */
  function NewGame<P>(eng: Engine<P>, player1: JsValue, player2: JsValue, idUuid: string, tokenUuid: string)
    : (r: Result<Game, Rejection>)
    ensures r.Err? <==> ValidatePlayerName(player1).Err? || ValidatePlayerName(player2).Err?
    ensures ValidatePlayerName(player1).Err? ==> r == Err(BadPlayerName(PlayerOne, ValidatePlayerName(player1).error))
    ensures ValidatePlayerName(player1).Ok? && ValidatePlayerName(player2).Err? ==>
              r == Err(BadPlayerName(PlayerTwo, ValidatePlayerName(player2).error))
    ensures r.Ok? ==> r.value.players == (Trim(player1.s), Trim(player2.s))
    ensures r.Ok? ==> r.value.status == InProgress && r.value.winner == None && StatusAgrees(r.value)
    ensures r.Ok? ==> r.value.turn == White && r.value.lastMove == None && r.value.history == []
    ensures r.Ok? ==> r.value.fen == eng.fen(eng.start)
    ensures r.Ok? ==> r.value.id == GameIdFrom(idUuid) && r.value.writeToken == Some(TokenFrom(tokenUuid))
  {
    var n1 := ValidatePlayerName(player1);
    if n1.Err? then Err(BadPlayerName(PlayerOne, n1.error))
    else
      var n2 := ValidatePlayerName(player2);
      if n2.Err? then Err(BadPlayerName(PlayerTwo, n2.error))
      else
        Ok(Game(
          id := GameIdFrom(idUuid),
          players := (n1.value, n2.value),
          fen := eng.fen(eng.start),
          status := InProgress,
          winner := None,
          turn := White,
          lastMove := None,
          history := [],
          writeToken := Some(TokenFrom(tokenUuid))))
  }

  /** Whoever created the game can write to it by presenting its token in
      the `x-game-token` header. */
  lemma CreatorCanWrite<P>(eng: Engine<P>, player1: JsValue, player2: JsValue, idUuid: string, tokenUuid: string, req: Request)
    requires NewGame(eng, player1, player2, idUuid, tokenUuid).Ok?
    requires IsUuid(tokenUuid)
    requires req.headers.gameToken == Some(TokenFrom(tokenUuid))
    ensures AuthorizeGameWrite(req, Some(NewGame(eng, player1, player2, idUuid, tokenUuid).value))
  {
    UuidDerivedShapes(tokenUuid);
    var g := NewGame(eng, player1, player2, idUuid, tokenUuid).value;
    HeaderTakesPrecedence(req, g, TokenFrom(tokenUuid));
  }

  // ---------------------------------------------------------------------------
  // Moves
  // ---------------------------------------------------------------------------

  /** `result.captured || null`. */
  function CapturedPiece(captured: Option<string>): (c: Option<string>)
    ensures c.Some? <==> captured.Some? && captured.value != ""
    ensures c.Some? ==> c == captured
  {
    if captured.Some? && captured.value != "" then captured else None
  }

  /** The engine's answer to a move text, tried on the stored position. */
  function Attempted<P>(eng: Engine<P>, g: Game, text: string): Attempt<P> {
    eng.move(eng.load(g.fen), text)
  }

  /** The game-over classification after a move, first matching case wins:
      checkmate (the side not to move has won), stalemate, any other end as a
      draw; a game that is not over keeps its status and winner. */
  ghost predicate Concluded<P>(eng: Engine<P>, after: P, g: Game, g': Game) {
    var over, mate, stale := eng.isGameOver(after), eng.isCheckmate(after), eng.isStalemate(after);
    && (!over ==> g'.status == g.status && g'.winner == g.winner)
    && (over && mate ==> g'.status == Checkmate && g'.winner == Some(Won(Opposite(eng.turn(after)))))
    && (over && !mate && stale ==> g'.status == Stalemate && g'.winner == Some(Drawn))
    && (over && !mate && !stale ==> g'.status == Draw && g'.winner == Some(Drawn))
  }

  /** What a successful move does to the record. */
  ghost predicate MoveRecorded<P>(eng: Engine<P>, g: Game, m: MoveResult, after: P, now: int, g': Game) {
    && g'.fen == eng.fen(after)
    && g'.turn == eng.turn(after)
    && g'.lastMove == Some(Squares(m.from, m.to))
    && |g'.history| == |g.history| + 1
    && g'.history[..|g.history|] == g.history
    && g'.history[|g.history|]
         == HistoryEntry(m.san, m.from, m.to, m.color, m.piece, CapturedPiece(m.captured), g'.fen, now)
    && Concluded(eng, after, g, g')
    && g'.id == g.id && g'.players == g.players && g'.writeToken == g.writeToken
  }

  /** The classification applied to the record after the move; only status
      and winner can change. */
  function Conclude<P>(eng: Engine<P>, after: P, g: Game): (r: Game)
    ensures Concluded(eng, after, g, r)
    ensures r.(status := g.status, winner := g.winner) == g
  {
    if !eng.isGameOver(after) then g
    else if eng.isCheckmate(after) then
      g.(status := Checkmate, winner := Some(Won(Opposite(eng.turn(after)))))
    else if eng.isStalemate(after) then g.(status := Stalemate, winner := Some(Drawn))
    else g.(status := Draw, winner := Some(Drawn))
  }

  /** The move handler's transition, from the loaded record (`None` when the
      id has no record) to the record it stores. Checks, in order: the record
      exists, the request is authorised, the game is in progress, the move
      text is well formed, the engine accepts the move. */
  function ApplyMove<P>(eng: Engine<P>, stored: Option<Game>, req: Request, move: JsValue, now: int)
    : (r: Result<Game, Rejection>)
    ensures stored.None? ==> r == Err(GameNotFound)
    ensures stored.Some? && !AuthorizeGameWrite(req, stored) ==> r == Err(Unauthorized)
    ensures AuthorizeGameWrite(req, stored) && stored.value.status != InProgress ==> r == Err(GameIsOver)
    ensures AuthorizeGameWrite(req, stored) && stored.value.status == InProgress && ValidateMoveFormat(move).Err? ==>
              r == Err(BadMoveText(ValidateMoveFormat(move).error))
    ensures r.Ok? <==>
              && AuthorizeGameWrite(req, stored)
              && stored.value.status == InProgress
              && ValidateMoveFormat(move).Ok?
              && Attempted(eng, stored.value, ValidateMoveFormat(move).value).Played?
    ensures AuthorizeGameWrite(req, stored) && stored.value.status == InProgress && ValidateMoveFormat(move).Ok? ==>
              var a := Attempted(eng, stored.value, ValidateMoveFormat(move).value);
              && (a.Threw? <==> r == Err(EngineThrew))
              && (a.Refused? <==> r == Err(IllegalMove))
    ensures r.Ok? ==>
              var a := Attempted(eng, stored.value, ValidateMoveFormat(move).value);
              MoveRecorded(eng, stored.value, a.result, a.after, now, r.value)
  {
    if stored.None? then Err(GameNotFound)
    else if !AuthorizeGameWrite(req, stored) then Err(Unauthorized)
    else
      var g := stored.value;
      if g.status != InProgress then Err(GameIsOver)
      else
        match ValidateMoveFormat(move)
        case Err(e) => Err(BadMoveText(e))
        case Ok(text) =>
          match Attempted(eng, g, text)
          case Threw => Err(EngineThrew)
          case Refused => Err(IllegalMove)
          case Played(m, after) =>
            var entry := HistoryEntry(m.san, m.from, m.to, m.color, m.piece, CapturedPiece(m.captured), eng.fen(after), now);
            var moved := g.(fen := eng.fen(after), turn := eng.turn(after),
                            lastMove := Some(Squares(m.from, m.to)), history := g.history + [entry]);
            Ok(Conclude(eng, after, moved))
  }

  // ---------------------------------------------------------------------------
  // Resignation
  // ---------------------------------------------------------------------------

  /** The resign handler's transition: the side whose turn it is resigns and
      the other side wins; nothing but status and winner changes. */
  function Resign(stored: Option<Game>, req: Request): (r: Result<Game, Rejection>)
    ensures stored.None? ==> r == Err(GameNotFound)
    ensures stored.Some? && !AuthorizeGameWrite(req, stored) ==> r == Err(Unauthorized)
    ensures AuthorizeGameWrite(req, stored) && stored.value.status != InProgress ==> r == Err(GameAlreadyOver)
    ensures r.Ok? <==> AuthorizeGameWrite(req, stored) && stored.value.status == InProgress
    ensures r.Ok? ==> r.value.status == Resignation && r.value.winner == Some(Won(Opposite(stored.value.turn)))
    ensures r.Ok? ==> r.value.(status := stored.value.status, winner := stored.value.winner) == stored.value
  {
    if stored.None? then Err(GameNotFound)
    else if !AuthorizeGameWrite(req, stored) then Err(Unauthorized)
    else
      var g := stored.value;
      if g.status != InProgress then Err(GameAlreadyOver)
      else
        var winner := if g.turn == White then Black else White;
        Ok(g.(status := Resignation, winner := Some(Won(winner))))
  }

  // ---------------------------------------------------------------------------
  // Take-back
  // ---------------------------------------------------------------------------

  /** What a successful take-back does: position and side to move from the
      engine, one history entry fewer (none when there were none), the last
      move from the engine's remaining move list, and an ended game revived. */
  ghost predicate UndoRecorded<P>(eng: Engine<P>, g: Game, back: P, g': Game) {
    var moves := eng.history(back);
    && g'.fen == eng.fen(back)
    && g'.turn == eng.turn(back)
    && |g'.history| == (if |g.history| > 0 then |g.history| - 1 else 0)
    && g'.history == g.history[..|g'.history|]
    && (moves == [] ==> g'.lastMove == None)
    && (moves != [] ==> g'.lastMove == Some(moves[|moves| - 1]))
    && g'.status == InProgress
    && (g.status != InProgress ==> g'.winner == None)
    && (g.status == InProgress ==> g'.winner == g.winner)
    && g'.id == g.id && g'.players == g.players && g'.writeToken == g.writeToken
  }

  /** The undo handler's transition. It does not look at the game's status:
      taking back a move is how an ended game is reopened. */
  function Undo<P>(eng: Engine<P>, stored: Option<Game>, req: Request): (r: Result<Game, Rejection>)
    ensures stored.None? ==> r == Err(GameNotFound)
    ensures stored.Some? && !AuthorizeGameWrite(req, stored) ==> r == Err(Unauthorized)
    ensures r.Ok? <==> AuthorizeGameWrite(req, stored) && eng.undo(eng.load(stored.value.fen)).Some?
    ensures AuthorizeGameWrite(req, stored) && eng.undo(eng.load(stored.value.fen)).None? ==> r == Err(NothingToUndo)
    ensures r.Ok? ==> UndoRecorded(eng, stored.value, eng.undo(eng.load(stored.value.fen)).value, r.value)
  {
    if stored.None? then Err(GameNotFound)
    else if !AuthorizeGameWrite(req, stored) then Err(Unauthorized)
    else
      var g := stored.value;
      match eng.undo(eng.load(g.fen))
      case None => Err(NothingToUndo)
      case Some(back) =>
        var history := if |g.history| > 0 then g.history[..|g.history| - 1] else g.history;
        var moves := eng.history(back);
        var lastMove := if |moves| > 0 then Some(moves[|moves| - 1]) else None;
        var revived := if g.status != InProgress then g.(status := InProgress, winner := None) else g;
        Ok(revived.(fen := eng.fen(back), turn := eng.turn(back), history := history, lastMove := lastMove))
  }
}
