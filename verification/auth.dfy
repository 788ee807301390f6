/**
  Write authorisation (`authorizeGameWrite` in website/backend/server.js):
  the request must present the record's write token, looked up in a fixed
  order of places, and the record must have a non-empty token at all.
 */
module Authorization {
  import opened Basics
  import opened JsValues
  import opened GameRecord

  /** The request headers the check reads; Node lower-cases header names and
      delivers each value as a string. */
  datatype Headers = Headers(
    gameToken: Option<string>,      // x-game-token
    gameTokenAlt: Option<string>,   // x-gametoken
    authorization: Option<string>)  // authorization

  /** The parts of an HTTP request that can carry a token. */
  datatype Request = Request(headers: Headers, queryToken: JsValue, bodyToken: JsValue)

  function HeaderValue(h: Option<string>): JsValue {
    match h
    case None => Nullish
    case Some(s) => Str(s)
  }

  const BearerPrefix: string := "Bearer "

  /** The text after "Bearer " in the authorization header, or null when the
      header is missing or does not start with that prefix. */
  function BearerToken(auth: Option<string>): (t: JsValue)
    ensures t.Str? <==> auth.Some? && |auth.value| >= 7 && auth.value[..7] == BearerPrefix
    ensures t.Str? ==> auth.value == BearerPrefix + t.s
    ensures !t.Str? ==> t == Nullish
  {
    if auth.Some? && |auth.value| >= |BearerPrefix| && auth.value[..|BearerPrefix|] == BearerPrefix
    then Str(auth.value[|BearerPrefix|..])
    else Nullish
  }

  /** The token the request presents: `headerToken || bearer || tokenFromParams`.
      It is the first of the five sources, in lookup order, that supplies a
      truthy value; when none does it is the last source's falsy value. */
  function PresentedToken(req: Request): (t: JsValue)
    ensures FirstTruthy(TokenSources(req)) < 5 ==> t == TokenSources(req)[FirstTruthy(TokenSources(req))]
    ensures FirstTruthy(TokenSources(req)) == 5 ==> t == req.bodyToken && !Truthy(t)
  {
    var headerToken := Or(HeaderValue(req.headers.gameToken), HeaderValue(req.headers.gameTokenAlt));
    var bearer := BearerToken(req.headers.authorization);
    var tokenFromParams := Or(req.queryToken, req.bodyToken);
    var t := Or(Or(headerToken, bearer), tokenFromParams);
    var vs := TokenSources(req);
    var i := FirstTruthy(vs);
    assert i < 5 ==> Truthy(vs[i]);
    assert i > 0 ==> !Truthy(vs[0]);
    assert i > 1 ==> !Truthy(vs[1]);
    assert i > 2 ==> !Truthy(vs[2]);
    assert i > 3 ==> !Truthy(vs[3]);
    assert i > 4 ==> !Truthy(vs[4]);
    t
  }

  /** The stored token as a JavaScript value: absent, or a string. */
  function StoredToken(g: Game): JsValue {
    match g.writeToken
    case None => Nullish
    case Some(t) => Str(t)
  }

  /** `authorizeGameWrite(req, gameState)`. */
  function AuthorizeGameWrite(req: Request, stored: Option<Game>): (ok: bool)
    ensures ok ==> stored.Some? && stored.value.writeToken.Some? && stored.value.writeToken.value != ""
    ensures ok ==> PresentedToken(req) == Str(stored.value.writeToken.value)
    ensures stored.Some? && Truthy(StoredToken(stored.value)) && PresentedToken(req) == StoredToken(stored.value) ==> ok
  {
    if stored.None? || !Truthy(StoredToken(stored.value)) then false
    else PresentedToken(req) == StoredToken(stored.value)
  }

  // ---------------------------------------------------------------------------
  // The lookup order as an independent reference
  // ---------------------------------------------------------------------------

  /** The five places a token may come from, in the order they are consulted. */
  function TokenSources(req: Request): (vs: seq<JsValue>)
    ensures |vs| == 5
  {
    [ HeaderValue(req.headers.gameToken),
      HeaderValue(req.headers.gameTokenAlt),
      BearerToken(req.headers.authorization),
      req.queryToken,
      req.bodyToken ]
  }

  /** Index of the first truthy value, or `|vs|` when there is none. */
  function FirstTruthy(vs: seq<JsValue>): (i: nat)
    ensures i <= |vs|
    ensures forall j :: 0 <= j < i ==> !Truthy(vs[j])
    ensures i < |vs| ==> Truthy(vs[i])
  {
    if vs == [] then 0
    else if Truthy(vs[0]) then 0
    else 1 + FirstTruthy(vs[1..])
  }

  /** Writing is authorised exactly when the record holds a non-empty token
      and the first source that supplies anything supplies that token. */
  lemma AuthorizationReference(req: Request, stored: Option<Game>)
    ensures AuthorizeGameWrite(req, stored) <==>
      && stored.Some?
      && stored.value.writeToken.Some?
      && stored.value.writeToken.value != ""
      && FirstTruthy(TokenSources(req)) < 5
      && TokenSources(req)[FirstTruthy(TokenSources(req))] == Str(stored.value.writeToken.value)
  {
  }

  /** A request that supplies no token anywhere is never authorised. */
  lemma NoTokenNoWrite(req: Request, stored: Option<Game>)
    requires forall j :: 0 <= j < 5 ==> !Truthy(TokenSources(req)[j])
    ensures !AuthorizeGameWrite(req, stored)
  {
    AuthorizationReference(req, stored);
  }

  /** An `x-game-token` header, when present and non-empty, decides alone:
      a wrong header is refused whatever the other places hold. */
  lemma HeaderTakesPrecedence(req: Request, g: Game, t: string)
    requires req.headers.gameToken == Some(t) && t != ""
    ensures AuthorizeGameWrite(req, Some(g)) <==> g.writeToken == Some(t)
  {
  }

  /** A record without a token, or with an empty one, cannot be written by
      anyone; in particular a sanitised projection never authorises. */
  lemma TokenlessRecordLocked(req: Request, g: Game)
    requires g.writeToken.None? || g.writeToken == Some("")
    ensures !AuthorizeGameWrite(req, Some(g))
    ensures !AuthorizeGameWrite(req, Some(Sanitize(g, false)))
  {
  }
}
