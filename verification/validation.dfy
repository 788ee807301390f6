/**
  The two input validators of the backend: player names at game creation and
  move text before it reaches the chess engine
  (`validatePlayerName` and `validateMoveFormat` in website/backend/server.js).
 */
module Validation {
  import opened Basics
  import opened JsValues
  import opened JsStrings

  // ---------------------------------------------------------------------------
  // Player names
  // ---------------------------------------------------------------------------

  /** The three refusals of `validatePlayerName`, in the order it checks them. */
  datatype NameError = NameRequired | NameLength | NameCharacters

  function NameErrorText(e: NameError): string {
    match e
    case NameRequired => "Player name is required"
    case NameLength => "Player name must be 1-20 characters"
    case NameCharacters => "Player name contains invalid characters"
  }

  /** The three texts differ, so the text names the refusal. */
  lemma NameErrorTextInjective(e1: NameError, e2: NameError)
    requires NameErrorText(e1) == NameErrorText(e2)
    ensures e1 == e2
  {
  }

  /** One character of the class `[a-zA-Z0-9\s\-_'.]`. */
  predicate IsNameChar(c: char) {
    ('a' <= c <= 'z') || ('A' <= c <= 'Z') || ('0' <= c <= '9')
    || IsWhitespace(c) || c == '-' || c == '_' || c == '\'' || c == '.'
  }

  predicate AllNameChars(s: string) {
    forall k :: 0 <= k < |s| ==> IsNameChar(s[k])
  }

  /** The length rule, on JavaScript's UTF-16 `length`. */
  predicate NameLengthOk(s: string) {
    1 <= Utf16Length(s) <= 20
  }

  /** What the validator accepts, stated on the trimmed text. */
  predicate IsValidName(t: string) {
    NameLengthOk(t) && AllNameChars(t)
  }

  /** `validatePlayerName`: refuses a missing, non-string or empty value, then
      a trimmed text outside 1..20 code units, then one with a character
      outside the class; otherwise yields the trimmed text. */
  function ValidatePlayerName(v: JsValue): (r: Result<string, NameError>)
    ensures r == Err(NameRequired) <==> !IsFilledString(v)
    ensures r == Err(NameLength) <==> IsFilledString(v) && !NameLengthOk(Trim(v.s))
    ensures r.Ok? <==> v.Str? && IsValidName(Trim(v.s))
    ensures r.Ok? ==> r.value == Trim(v.s)
    ensures r.Ok? ==> 1 <= |r.value| <= 20 && Unpadded(r.value)
  {
    if !IsFilledString(v) then Err(NameRequired)
    else
      var trimmed := Trim(v.s);
      if !NameLengthOk(trimmed) then Err(NameLength)
      else if !AllNameChars(trimmed) then Err(NameCharacters)
      else
        AcceptedNameIsBmp(trimmed);
        Ok(trimmed)
  }

  /** Every character the class admits is a single UTF-16 unit, so an accepted
      name's JavaScript length is its length in characters. */
  lemma AcceptedNameIsBmp(t: string)
    requires AllNameChars(t)
    ensures Utf16Length(t) == |t|
  {
    forall k | 0 <= k < |t|
      ensures !IsAstral(t[k])
    {
      assert IsNameChar(t[k]);
    }
  }

  /** Surrounding whitespace never changes the verdict on a name, nor the
      accepted name itself (the padded value is never empty, so only the
      "required" refusal of an empty core can differ). */
  lemma NamePaddingIrrelevant(a: string, m: string, b: string)
    requires AllWhitespace(a) && AllWhitespace(b) && Unpadded(m) && m != []
    ensures ValidatePlayerName(Str(a + m + b)) == ValidatePlayerName(Str(m))
  {
    assert |a + m + b| == |a| + |m| + |b|;
    assert [] + m + [] == m;
    TrimOfPadded(a, m, b);
    TrimOfPadded([], m, []);
    NameVerdictByTrim(a + m + b, m);
  }

  /** The verdict on a non-empty string depends only on its trimmed text. */
  lemma NameVerdictByTrim(s: string, t: string)
    requires s != [] && t != [] && Trim(s) == Trim(t)
    ensures ValidatePlayerName(Str(s)) == ValidatePlayerName(Str(t))
  {
  }

  // ---------------------------------------------------------------------------
  // Move text
  // ---------------------------------------------------------------------------

  /** The two refusals of `validateMoveFormat`. */
  datatype MoveFormatError = MoveRequired | MoveMalformed

  function MoveFormatErrorText(e: MoveFormatError): string {
    match e
    case MoveRequired => "Move is required"
    case MoveMalformed => "Invalid move format. Use format like \"e2e4\""
  }

  predicate IsFile(c: char) { 'a' <= c <= 'h' }

  predicate IsRank(c: char) { '1' <= c <= '8' }

  predicate IsPromotion(c: char) { c == 'q' || c == 'r' || c == 'b' || c == 'n' }

  /** The anchored grammar `^[a-h][1-8][a-h][1-8][qrbn]?$`. */
  predicate IsMoveText(s: string) {
    && (|s| == 4 || |s| == 5)
    && IsFile(s[0]) && IsRank(s[1]) && IsFile(s[2]) && IsRank(s[3])
    && (|s| == 5 ==> IsPromotion(s[4]))
  }

  /** The characters the first replacement deletes: `[\s\-]`. */
  predicate IsSeparator(c: char) {
    IsWhitespace(c) || c == '-'
  }

  /** Lower-case, delete whitespace and dashes, then delete "to". */
  function Normalize(s: string): (r: string)
    ensures |r| <= |s|
    ensures forall k :: 0 <= k < |r| ==> !IsUpperAscii(r[k]) && !IsSeparator(r[k])
  {
    var l := ToLower(s);
    var w := Without(l, IsSeparator);
    WithoutKeeps(l, IsSeparator, c => !IsUpperAscii(c));
    WithoutToKeeps(w, c => !IsUpperAscii(c) && !IsSeparator(c));
    WithoutTo(w)
  }

  /** `validateMoveFormat`: refuses a missing, non-string or empty value, then
      a normalised text outside the grammar; otherwise yields the normalised
      text. */
  function ValidateMoveFormat(v: JsValue): (r: Result<string, MoveFormatError>)
    ensures r == Err(MoveRequired) <==> !IsFilledString(v)
    ensures r == Err(MoveMalformed) <==> IsFilledString(v) && !IsMoveText(Normalize(v.s))
    ensures r.Ok? ==> IsFilledString(v) && r.value == Normalize(v.s) && IsMoveText(r.value)
  {
    if !IsFilledString(v) then Err(MoveRequired)
    else
      var normalized := Normalize(v.s);
      if !IsMoveText(normalized) then Err(MoveMalformed)
      else Ok(normalized)
  }

  /** Lower-case ASCII letters and digits: the characters the first two
      normalisation steps leave alone. */
  predicate IsPlain(c: char) {
    ('a' <= c <= 'z') || ('0' <= c <= '9')
  }

  /** Text made of plain characters is normalised by the deletion of "to"
      alone. */
  lemma NormalizeOfPlain(s: string)
    requires forall k :: 0 <= k < |s| ==> IsPlain(s[k])
    ensures Normalize(s) == WithoutTo(s)
  {
    var l := ToLower(s);
    assert l == s by {
      forall k | 0 <= k < |s|
        ensures l[k] == s[k]
      {
        assert !IsUpperAscii(s[k]);
      }
    }
    forall k | 0 <= k < |s|
      ensures !IsSeparator(s[k])
    {
      PlainIsNoSeparator(s[k]);
    }
    assert Without(s, IsSeparator) == s;
  }

  lemma PlainIsNoSeparator(c: char)
    requires IsPlain(c)
    ensures !IsSeparator(c)
  {
  }

  /** A text already in the grammar is its own normal form. */
  lemma NormalizeFixesMoveText(m: string)
    requires IsMoveText(m)
    ensures Normalize(m) == m
  {
    forall k | 0 <= k < |m|
      ensures IsPlain(m[k]) && m[k] != 't'
    {
      if k == 4 {
        assert IsPromotion(m[4]);
      }
    }
    NormalizeOfPlain(m);
    WithoutToSkipsTless(m);
  }

  /** Normalisation is idempotent on everything the validator accepts:
      feeding an accepted move back in returns it unchanged. */
  lemma ValidateMoveFormatIdempotent(v: JsValue)
    requires ValidateMoveFormat(v).Ok?
    ensures ValidateMoveFormat(Str(ValidateMoveFormat(v).value)) == ValidateMoveFormat(v)
  {
    NormalizeFixesMoveText(ValidateMoveFormat(v).value);
  }

  /** Inserting a space or a dash anywhere in a non-empty move text changes
      neither acceptance nor the normalised move. */
  lemma SeparatorInsensitive(a: string, c: char, b: string)
    requires IsSeparator(c) && a + b != []
    ensures ValidateMoveFormat(Str(a + [c] + b)) == ValidateMoveFormat(Str(a + b))
  {
    SeparatorSkipped(a, c, b);
  }

  lemma SeparatorSkipped(a: string, c: char, b: string)
    requires IsSeparator(c)
    ensures Normalize(a + [c] + b) == Normalize(a + b)
  {
    LowerKeepsSeparator(a, c, b);
    var la, lb := ToLower(a), ToLower(b);
    SeparatorDropped(la, c, lb);
    ToLowerAppend(a, b);
  }

  lemma LowerKeepsSeparator(a: string, c: char, b: string)
    requires IsSeparator(c)
    ensures ToLower(a + [c] + b) == ToLower(a) + [c] + ToLower(b)
  {
    ToLowerAppend(a + [c], b);
    ToLowerAppend(a, [c]);
    assert ToLower([c]) == [LowerChar(c)] + ToLower([]);
  }

  lemma SeparatorDropped(x: string, c: char, y: string)
    requires IsSeparator(c)
    ensures Without(x + [c] + y, IsSeparator) == Without(x + y, IsSeparator)
  {
    WithoutAppend(x + [c], y, IsSeparator);
    WithoutAppend(x, [c], IsSeparator);
    WithoutAppend(x, y, IsSeparator);
    assert Without([c], IsSeparator) == Without([], IsSeparator) == [];
    assert Without(x, IsSeparator) + [] == Without(x, IsSeparator);
  }

  /** Move text is read without regard to case. */
  lemma CaseInsensitive(s: string)
    ensures ValidateMoveFormat(Str(s)) == ValidateMoveFormat(Str(ToLower(s)))
  {
    ToLowerIdempotent(s);
    assert ToLower(s) == [] <==> s == [];
  }

  /** "E2 TO E4" is read as "e2e4": upper case, spaces and the word together. */
  lemma ShoutedSpelling()
    ensures ValidateMoveFormat(Str("E2 TO E4")) == Ok("e2e4")
  {
    ShoutedLowered();
    CaseInsensitive("E2 TO E4");
    WordedSpelling();
  }

  lemma ShoutedLowered()
    ensures ToLower("E2 TO E4") == "e2 to e4"
  {
    var l := ToLower("E2 TO E4");
    assert l[0] == 'e' && l[1] == '2' && l[2] == ' ' && l[3] == 't';
    assert l[4] == 'o' && l[5] == ' ' && l[6] == 'e' && l[7] == '4';
  }

  /** "e2-e4" is read as "e2e4". */
  lemma DashedSpelling()
    ensures ValidateMoveFormat(Str("e2-e4")) == Ok("e2e4")
  {
    assert "e2" + ['-'] + "e4" == "e2-e4";
    assert "e2" + "e4" == "e2e4";
    assert IsMoveText("e2e4");
    SeparatorSkipped("e2", '-', "e4");
    NormalizeFixesMoveText("e2e4");
    assert Normalize("e2-e4") == "e2e4";
  }

  /** "e2 to e4" is read as "e2e4". */
  lemma WordedSpelling()
    ensures ValidateMoveFormat(Str("e2 to e4")) == Ok("e2e4")
  {
    assert IsMoveText("e2e4");
    SecondSpaceIgnored();
    FirstSpaceIgnored();
    WordNormalized();
    assert Normalize("e2 to e4") == "e2e4";
  }

  lemma SecondSpaceIgnored()
    ensures Normalize("e2 to e4") == Normalize("e2 toe4")
  {
    assert "e2 to" + [' '] + "e4" == "e2 to e4";
    assert "e2 to" + "e4" == "e2 toe4";
    SeparatorSkipped("e2 to", ' ', "e4");
  }

  lemma FirstSpaceIgnored()
    ensures Normalize("e2 toe4") == Normalize("e2toe4")
  {
    assert "e2" + [' '] + "toe4" == "e2 toe4";
    assert "e2" + "toe4" == "e2toe4";
    SeparatorSkipped("e2", ' ', "toe4");
  }

  lemma WordNormalized()
    ensures Normalize("e2toe4") == "e2e4"
  {
    var s := "e2toe4";
    assert IsPlain(s[0]) && IsPlain(s[1]) && IsPlain(s[2]) && IsPlain(s[3]) && IsPlain(s[4]) && IsPlain(s[5]);
    NormalizeOfPlain(s);
    WordSkipped();
  }

  lemma WordSkipped()
    ensures WithoutTo("e2toe4") == "e2e4"
  {
    assert "e2toe4"[1..] == "2toe4" && "2toe4"[1..] == "toe4" && "toe4"[2..] == "e4";
    assert WithoutTo("e4") == "e4";
    assert WithoutTo("toe4") == "e4";
    assert WithoutTo("2toe4") == "2e4";
  }

  /** "z9z9" names no square and is refused; so is a missing move. */
  lemma OffBoardRejected()
    ensures ValidateMoveFormat(Str("z9z9")) == Err(MoveMalformed)
    ensures ValidateMoveFormat(Str("")) == Err(MoveRequired)
    ensures ValidateMoveFormat(Nullish) == Err(MoveRequired)
  {
    NormalizeOfPlain("z9z9");
  }

  /** The deletion of "to" is a single pass: an occurrence formed by an
      earlier deletion survives. */
  lemma ToDeletionIsSinglePass()
    ensures WithoutTo("ttoo") == "to"
  {
  }
}
