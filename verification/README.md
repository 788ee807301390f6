# trmnl_chess game-record model

A Dafny model of the game-state core of the trmnl_chess backend
(`website/backend/server.js`): two people play chess in a browser, the
backend keeps one JSON record per game in a key-value store, and an e-paper
display polls whichever game is "current". The model covers:

- the input validators `validatePlayerName` and `validateMoveFormat`
  (module `Validation`, on top of the JavaScript string built-ins in
  `JsStrings` and value semantics in `JsValues`);
- the game record, its invariant and the read projection `sanitizeGameState`
  (`GameRecord`);
- write authorisation `authorizeGameWrite` and its token lookup order
  (`Authorization`);
- the transitions performed by the create, move, resign and undo handlers,
  each returning the new record or the refusal, with the refusals in the
  handlers' order (`Transitions`);
- the invariants those transitions keep, over single steps and over any
  sequence of requests (`Lifecycle`);
- the handlers themselves over an abstract store (a map from game id to
  record plus the single current-game id), including reset-current, the
  two read routes, status codes and messages (`Backend`).

The chess engine (chess.js) is abstract: `ChessEngine.Engine<P>` is any
bundle of functions over an opaque position type `P` for loading a FEN,
reading the FEN and the side to move, trying a move (which may throw, return
null or succeed), the three game-over tests, taking a move back (which may
return null) and the verbose move list. Properties that need chess facts
rely only on the laws in `ChessEngine.Lawful` (a FEN records the side to move,
a move hands the turn over, the start position has white to move).

Inputs rather than behaviour: the clock reading stored in each history entry
(`now`), the two `randomUUID()` strings (`idUuid`, `tokenUuid`), the request
headers, query and body, and whether each store write or delete succeeds
(`persisted`, `deleted`).

The model follows the code in these details:

- move text is lower-cased *before* whitespace, dashes and "to" are removed,
  so "E2 TO E4" is accepted (`Validation.ShoutedSpelling`);
- the removal of "to" is JavaScript's single left-to-right global replace,
  so "ttoo" leaves "to" (`Validation.ToDeletionIsSinglePass`); such text is
  refused by the grammar anyway;
- the game-over classification is nested under `isGameOver()`: an engine
  reporting checkmate but not game over leaves the game in progress;
- a new game's `turn` is the constant "w", not read from the engine;
- undo resets `winner` only when the game had ended; for a game in progress
  it keeps the stored winner, which the invariant makes null;
- the game id is the first 12 characters of a dash-free UUID and the token
  the whole 32, both computed from the UUID inputs.

## Model

| member | source | states |
|---|---|---|
| `JsValues.Or` | website/backend/server.js:842-846 | JavaScript `a \|\| b`: the first operand when it is truthy, the second otherwise; so truthy exactly when one operand is |
| `JsStrings.Trim` | website/backend/server.js:282 | `trim()` leaves no whitespace at either end, is empty exactly for all-whitespace input, and never grows |
| `JsStrings.TrimOfPadded` | website/backend/server.js:282 | trimming any unpadded text surrounded by whitespace returns exactly that text (uniqueness of the trimmed form) |
| `JsStrings.TrimIdempotent` | website/backend/server.js:282 | trimming twice is trimming once |
| `JsStrings.Utf16Length` | website/backend/server.js:284 | `length` counts UTF-16 units: one for a single non-astral character and two for an astral one, between one and two per character, and equal to the character count exactly when no character is astral |
| `JsStrings.Utf16LengthAppend` | website/backend/server.js:284 | code units add up over concatenation, which with the one-character case fixes the count of every string |
| `JsStrings.Without` | website/backend/server.js:307 | deleting a character class leaves none of the class, never grows, changes nothing when no character is in the class, and maps a single character to nothing or to itself according to the class |
| `JsStrings.WithoutAppend` | website/backend/server.js:307 | deleting a character class distributes over concatenation; with the one-character case this determines the result of every deletion |
| `JsStrings.WithoutKeeps` | website/backend/server.js:307 | deletion only removes characters: whatever holds of every input character holds of every output character |
| `JsStrings.ToLowerAppend` | website/backend/server.js:307 | lower-casing distributes over concatenation |
| `JsStrings.ToLower` | website/backend/server.js:307 | ASCII lower-casing, the part of `toLowerCase` the move grammar can see: the length is kept and each character is mapped on its own, A-Z to a-z, everything else unchanged (see "Left out" for the rest of Unicode) |
| `JsStrings.ToLowerIdempotent` | website/backend/server.js:307 | lower-casing twice is lower-casing once |
| `JsStrings.WithoutTo` | website/backend/server.js:307 | a single character is kept as it is, and deleting "to" never makes the text longer; with `WithoutToAppend` and `WithoutToDeletes` this fixes the result on every string, as the global `replace` does |
| `JsStrings.WithoutToAppend` | website/backend/server.js:307 | the deletion of "to" splits at every boundary that does not fall inside an occurrence of "to" |
| `JsStrings.WithoutToDeletes` | website/backend/server.js:307 | every occurrence of "to" is deleted, whatever precedes it, and the text on both sides is processed independently |
| `JsStrings.WithoutToSkipsTless` | website/backend/server.js:307 | text without a 't' is left unchanged |
| `JsStrings.WithoutToKeeps` | website/backend/server.js:307 | the deletion of "to" only removes characters: whatever holds of every input character holds of every output character |
| `Validation.ValidatePlayerName` | website/backend/server.js:277-294 | refuses as "required" exactly the missing, non-string or empty values; refuses on length exactly when the trimmed text is outside 1..20 UTF-16 units; accepts exactly when the trimmed text is 1..20 units of letters, digits, whitespace, `-`, `_`, `'`, `.`, and then returns that trimmed text, of 1..20 characters with no surrounding whitespace |
| `Validation.AcceptedNameIsBmp` | website/backend/server.js:289 | every character the name class admits is one UTF-16 unit, so the length rule counts characters for accepted names |
| `Validation.NameVerdictByTrim` | website/backend/server.js:282-294 | the verdict on a non-empty string depends only on its trimmed text |
| `Validation.NamePaddingIrrelevant` | website/backend/server.js:282-294 | surrounding a non-empty unpadded name with whitespace changes neither the verdict nor the accepted name |
| `Validation.ValidateMoveFormat` | website/backend/server.js:301-316 | refuses as "required" exactly the missing, non-string or empty values; otherwise accepts exactly when the lower-cased text, with whitespace, dashes and then "to" deleted, matches `[a-h][1-8][a-h][1-8][qrbn]?`, and returns that normalised text |
| `Validation.Normalize` | website/backend/server.js:307 | the normalised move text holds no ASCII capital letter, whitespace or dash, and (with ASCII lower-casing) is no longer than the input |
| `Validation.NormalizeOfPlain` | website/backend/server.js:307 | text of lower-case letters and digits is normalised by the deletion of "to" alone |
| `Validation.NormalizeFixesMoveText` | website/backend/server.js:307-313 | every text in the move grammar is its own normal form |
| `Validation.ValidateMoveFormatIdempotent` | website/backend/server.js:301-316 | validating an accepted move again returns it unchanged |
| `Validation.SeparatorInsensitive` | website/backend/server.js:307 | inserting a whitespace character or dash anywhere in non-empty move text changes neither acceptance nor the result |
| `Validation.CaseInsensitive` | website/backend/server.js:307 | move text and its lower-cased form get the same verdict and result |
| `Validation.DashedSpelling` | website/backend/server.js:296-316 | "e2-e4" is accepted as "e2e4" |
| `Validation.WordedSpelling` | website/backend/server.js:296-316 | "e2 to e4" is accepted as "e2e4" |
| `Validation.ShoutedSpelling` | website/backend/server.js:301-316 | "E2 TO E4" is accepted as "e2e4" |
| `Validation.OffBoardRejected` | website/backend/server.js:301-313 | "z9z9" is refused as malformed; the empty string and a missing move are refused as required |
| `Validation.ToDeletionIsSinglePass` | website/backend/server.js:307 | the global replace of "to" is one pass: "ttoo" becomes "to" |
| `ChessEngine.Opposite` | website/backend/server.js:601-602 | the opponent of a colour is the other colour |
| `GameRecord.Sanitize` | website/backend/server.js:827-833 | the projection equals the record with the token when asked for it, has no token otherwise, and agrees with the record on every other field |
| `GameRecord.SanitizeIdempotent` | website/backend/server.js:827-833 | projecting a token-free projection again changes nothing, and projection keeps the status/winner invariant |
| `Authorization.BearerToken` | website/backend/server.js:843 | the bearer token is a string exactly when the authorization header starts with "Bearer ", and is then the rest of the header; otherwise it is null |
| `Authorization.PresentedToken` | website/backend/server.js:842-846 | the presented token is the value of the first of x-game-token, x-gametoken, the bearer token, query.token and body.token that is truthy; when none is, it is body.token, which is falsy |
| `Authorization.AuthorizeGameWrite` | website/backend/server.js:838-849 | authorised only for an existing record with a non-empty token that the request presents exactly; presenting that token authorises |
| `Authorization.FirstTruthy` | website/backend/server.js:842-846 | index of the first truthy value: all earlier ones are falsy |
| `Authorization.AuthorizationReference` | website/backend/server.js:838-849 | authorised exactly when the record has a non-empty token and the first of x-game-token, x-gametoken, the bearer token, query.token, body.token that supplies anything supplies that token |
| `Authorization.NoTokenNoWrite` | website/backend/server.js:838-849 | a request that supplies no token anywhere is never authorised |
| `Authorization.HeaderTakesPrecedence` | website/backend/server.js:842-846 | a non-empty x-game-token header alone decides, whatever else the request carries |
| `Authorization.TokenlessRecordLocked` | website/backend/server.js:839 | a record with a missing or empty token, and any sanitised projection, cannot be written by anyone |
| `Transitions.StatusCode` | website/backend/server.js:500-534 | a missing record is answered 404, a failed authorisation 401, every other refusal 400 |
| `Transitions.MessageIdentifiesRefusal` | website/backend/server.js:442-705 | each refusal is answered with a message of its own (the texts the handlers send), so the message names the refusal |
| `Transitions.TokenFrom` | website/backend/server.js:457 | no dash is left, the token is no longer than the UUID, and a dash-free UUID is kept whole; that only dashes are deleted comes from `Without`, and `UuidDerivedShapes` gives the exact token of a UUID |
| `Transitions.GameIdFrom` | website/backend/server.js:456 | the game id is the first 12 characters (fewer only if there are fewer) of the dash-free UUID |
| `Transitions.UndashGroup` | website/backend/server.js:456-457 | deleting dashes from a dash plus a group of hex digits appends exactly that group |
| `Transitions.UuidDerivedShapes` | website/backend/server.js:456-457 | from a UUID the token is exactly its five hex groups joined (32 digits) and the id exactly its first two groups (12 digits) |
| `Transitions.NewGame` | website/backend/server.js:442-470 | refuses exactly when a name is invalid, reporting player 1 before player 2; otherwise the record has the trimmed names, the start FEN, in_progress with no winner, white to move, no last move, empty history, and the token and id derived from the UUIDs |
| `Transitions.CreatorCanWrite` | website/backend/server.js:456-469 | the creator, presenting the issued token, is authorised to write the new game |
| `Transitions.CapturedPiece` | website/backend/server.js:551 | the stored captured piece is present exactly when the engine reported a non-empty one, and is then that piece |
| `Transitions.Conclude` | website/backend/server.js:556-568 | after a move: checkmate gives the side not to move the win, then stalemate, then any other end is a draw; a game that is not over keeps its status and winner; nothing else changes |
| `Transitions.ApplyMove` | website/backend/server.js:500-568 | refuses a missing record, then a failed authorisation, then an ended game, then malformed text, in that order; for an authorised in-progress game with well-formed text, an engine exception is answered as "Invalid move format." and exactly then, and a null result as "Illegal move." and exactly then; succeeds exactly when all checks pass, and then appends exactly one history entry (captured null when nothing was taken, the FEN after the move, the clock reading), sets lastMove, FEN and turn from the engine, classifies checkmate (won by the side not to move) before stalemate before any other end as a draw, leaves a game that is not over in progress, and keeps id, players and token |
| `Transitions.Resign` | website/backend/server.js:586-606 | refuses a missing record, then a failed authorisation, then an ended game; otherwise sets status resignation with the opponent of the side to move as winner and changes nothing else |
| `Transitions.Undo` | website/backend/server.js:653-693 | refuses a missing record, then a failed authorisation, then an engine take-back that returns null, and never the game's status; otherwise drops one history entry (none if empty), takes FEN, turn and lastMove from the engine's position and remaining move list, leaves the game in progress, clears the winner of an ended game, and keeps id, players and token |
| `Lifecycle.NewGameWellFormed` | website/backend/server.js:458-469 | a new game has a winner exactly when over and, for a lawful engine, a turn matching its FEN |
| `Lifecycle.ApplyMoveKeepsStatusAgreement` | website/backend/server.js:556-568 | a move keeps "winner present exactly when the game is over" |
| `Lifecycle.AttemptedFromStoredPosition` | website/backend/server.js:523-527 | the move is tried on a fresh engine loaded from the stored FEN, so two records with the same FEN get the same answer; with a lawful engine and a stored turn that matches the FEN, a played move leaves the other side to move |
| `Lifecycle.ApplyMoveHandsOverTurn` | website/backend/server.js:536-538 | with a lawful engine, every applied move hands the turn to the other side and keeps the turn matching the FEN |
| `Lifecycle.MateCreditsMover` | website/backend/server.js:557-560 | a mate is credited to the side that made the mating move |
| `Lifecycle.ResignKeepsInvariants` | website/backend/server.js:596-603 | resignation keeps both record invariants |
| `Lifecycle.UndoKeepsInvariants` | website/backend/server.js:663-693 | a take-back leaves the game in progress with no winner, and its turn matching its FEN when FENs record the side to move |
| `Lifecycle.StepKeepsInvariants` | website/backend/server.js:500-693 | any accepted move, resignation or take-back keeps both invariants and the id, players and token |
| `Lifecycle.ReplayKeepsInvariants` | website/backend/server.js:500-693 | after any sequence of write requests, accepted or refused, a well-formed game stays well formed and keeps its id, players and token |
| `Lifecycle.EndedGameOnlyUndoes` | website/backend/server.js:511-513 | on an ended game only a take-back succeeds, and it reopens the game |
| `Backend.Fetch` | website/backend/server.js:800-822 | the loaded record is present exactly when the store holds the id, and is the stored one |
| `Backend.Commit` | website/backend/server.js:570-582 | a refusal is answered with its code and message and stores nothing; a failed store write is answered 500 and stores nothing; otherwise only the game's key is written, the current-game id is set to it, and the answer is the token-free projection |
| `Backend.CreateGame` | website/backend/server.js:442-482 | invalid names are refused with nothing stored; a failed store write is answered 500 "Failed to persist game state" with nothing stored; 201 exactly when the names pass and the write succeeds, and then the response carries the full record with its token, and the record is stored under its id and becomes current |
| `Backend.GetGame` | website/backend/server.js:485-497 | an unknown id is answered 404 "Game not found" (and only an unknown id gets 404); a known id gets 200 with the stored record's token-free projection |
| `Backend.PollState` | website/backend/server.js:409-434 | always 200 and token-free; with no current id, or an empty one, the welcome screen with no error; with a current id whose record is gone, the welcome screen with "Game not found in Redis"; a game is shown exactly when a current id is set and stored, and it is that game's projection |
| `Backend.MakeMove` | website/backend/server.js:500-583 | a refused move is answered with its code and message and stores nothing; an accepted move whose write succeeds is stored under its id, becomes current and is answered 200 with its token-free projection; a failed write is answered 500 "Failed to persist game state" and stores nothing; the store changes only for an authorised request; no token in any answer |
| `Backend.ResignGame` | website/backend/server.js:586-621 | as for moves, with the resignation transition |
| `Backend.UndoMove` | website/backend/server.js:653-705 | as for moves, with the take-back transition |
| `Backend.ResetCurrent` | website/backend/server.js:624-650 | without a current game answers welcome and changes nothing; an unauthorised request against the current game is answered 401; an authorised one deletes that game, clears the current-game id and answers welcome when the delete succeeds, and is answered 500 "Failed to reset current game" with nothing changed when it fails |
| `Backend.HandleKeepsStoreAgreement` | website/backend/server.js:442-705 | every write handler keeps every stored record's status/winner invariant, and only game creation answers with a token |
| `Backend.ServeKeepsStoreAgreement` | website/backend/server.js:442-705 | any sequence of requests, whichever store writes fail, keeps every stored record's status/winner agreement |

## Left out

- HTTP plumbing: routing, CORS, JSON body parsing, response headers, logging, Sentry, static files and the frontend pages are framework glue around the handlers.
- Rate limiting: driven by the wall clock and, in production, an external service.
- The display webhook (`triggerTRMNLRefresh`) and the QR-code routes: network calls and image generation. The per-game QR route embeds the write token in a URL without authorisation, so "only creation reveals the token" holds for the JSON responses modelled here, not for that route.
- Persistence mechanics: Redis clients, JSON serialisation and the shape coercion in `fetchGameState`; a fetch that fails or cannot be parsed reads as a missing record, which the store map expresses by the absence of the key. Older records without a `history` array are not modelled: history is always a sequence.
- Failed updates of the current-game id: `updateCurrentGameId` swallows its own errors, so in the source a failed update leaves the old current-game id while the handler still answers success. The model always performs the update; that failure path, and the development-mode file backing of the id, are not modelled.
- The chess engine's rules: legality, move generation and FEN handling are the abstract `Engine`. Constructing an engine from a malformed stored FEN (which throws outside any handler `try`) is not modelled: `load` is total. Taking a move back is an opaque `Option`, because an engine rebuilt from a FEN string may have no move to take back.
- The near round-trip "undo then replay the same move gives the same record up to timestamps" is not stated: it depends on the engine's take-back and move agreeing, which the abstract engine does not promise.
- JsStrings.ToLower: only ASCII letters are lower-cased, not full Unicode `toLowerCase`. No other character lower-cases to a letter, digit, whitespace or dash the move grammar or separator class uses (the only non-ASCII characters that lower-case to ASCII are U+0130 and U+212A, giving "i" plus a combining dot and "k"), so acceptance and the result are the same.
- Validation.Normalize: "no capital letter" and "no longer than the input" are stated for ASCII lower-casing. Full `toLowerCase` also lowers non-ASCII capitals such as "É", which the model keeps, and turns U+0130 into two characters, so the source's normalised text can be longer than its input. As the line above explains, neither changes the verdict.
- Lone UTF-16 surrogates: Dafny strings hold Unicode scalar values, so a JavaScript string with an unpaired surrogate has no counterpart.
- Concurrency: overlapping requests on the same game are last-writer-wins in the source; the model is sequential.
- `Date.now()` and `randomUUID()` are inputs; uniqueness of ids and tokens is not modelled.
- Record fields of other JSON types than the model's (for example a numeric `writeToken`) are not modelled; a missing token is `None`.
