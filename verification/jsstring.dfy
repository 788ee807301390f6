/**
  The JavaScript string built-ins the validators use, over Dafny strings
  (sequences of Unicode scalar values): `trim`, the regular-expression class
  `\s`, `toLowerCase` on ASCII letters, `length` in UTF-16 code units, and
  global deletion by a character class or by a literal.
 */
module JsStrings {

  /** ECMAScript WhiteSpace and LineTerminator code points: the set that both
      `String.prototype.trim` and the regular-expression escape `\s` use. */
  predicate IsWhitespace(c: char) {
    var n := c as int;
    n == 0x09 || n == 0x0A || n == 0x0B || n == 0x0C || n == 0x0D || n == 0x20
    || n == 0xA0 || n == 0x1680 || (0x2000 <= n <= 0x200A)
    || n == 0x2028 || n == 0x2029 || n == 0x202F || n == 0x205F
    || n == 0x3000 || n == 0xFEFF
  }

  predicate AllWhitespace(s: string) {
    forall k :: 0 <= k < |s| ==> IsWhitespace(s[k])
  }

  /** Neither end of `s` is whitespace (vacuously so for the empty string). */
  predicate Unpadded(s: string) {
    s == [] || (!IsWhitespace(s[0]) && !IsWhitespace(s[|s| - 1]))
  }

  /** Number of whitespace characters at the start of `s`. */
  function LeadingSpace(s: string): (n: nat)
    ensures n <= |s|
    ensures AllWhitespace(s[..n])
    ensures n < |s| ==> !IsWhitespace(s[n])
  {
    if |s| > 0 && IsWhitespace(s[0]) then
      assert s[1..][..LeadingSpace(s[1..])] == s[1..1 + LeadingSpace(s[1..])];
      1 + LeadingSpace(s[1..])
    else 0
  }

  /** Number of whitespace characters at the end of `s`. */
  function TrailingSpace(s: string): (n: nat)
    ensures n <= |s|
    ensures forall k :: |s| - n <= k < |s| ==> IsWhitespace(s[k])
    ensures n < |s| ==> !IsWhitespace(s[|s| - 1 - n])
  {
    if |s| > 0 && IsWhitespace(s[|s| - 1]) then 1 + TrailingSpace(s[..|s| - 1])
    else 0
  }

  /** `s.trim()`. */
  function Trim(s: string): (r: string)
    ensures Unpadded(r)
    ensures r == [] <==> AllWhitespace(s)
    ensures |r| <= |s|
  {
    var i := LeadingSpace(s);
    var t := s[i..];
    var j := TrailingSpace(t);
    var r := t[..|t| - j];
    assert r != [] ==> r[0] == s[i] && r[|r| - 1] == t[|t| - 1 - j];
    assert AllWhitespace(s) ==> i == |s|;
    assert t != [] ==> t[0] == s[i];
    assert i == |s| ==> s[..i] == s;
    r
  }

  /** Trimming is pinned down by its input's shape: whatever unpadded text is
      surrounded by whitespace is exactly what `trim` returns. */
  lemma TrimOfPadded(a: string, m: string, b: string)
    requires AllWhitespace(a) && AllWhitespace(b) && Unpadded(m)
    ensures Trim(a + m + b) == m
  {
    var s := a + m + b;
    if m == [] {
      assert AllWhitespace(s) by {
        forall k | 0 <= k < |s|
          ensures IsWhitespace(s[k])
        {
          if k < |a| {
            assert s[k] == a[k];
          } else {
            assert s[k] == b[k - |a|];
          }
        }
      }
      return;
    }
    var i := LeadingSpace(s);
    assert s[|a|] == m[0];
    assert forall k :: 0 <= k < i ==> s[..i][k] == s[k];
    assert i == |a|;
    var t := s[i..];
    assert t == m + b;
    var j := TrailingSpace(t);
    assert t[|t| - 1 - |b|] == m[|m| - 1];
    assert forall k :: |t| - j <= k < |t| ==> t[|t| - j..][k - (|t| - j)] == t[k];
    assert j == |b|;
    assert t[..|t| - j] == m;
  }

  /** Trimming twice is trimming once. */
  lemma TrimIdempotent(s: string)
    ensures Trim(Trim(s)) == Trim(s)
  {
    TrimOfPadded([], Trim(s), []);
    assert [] + Trim(s) + [] == Trim(s);
  }

  /** A code point outside the Basic Multilingual Plane, which JavaScript
      stores as a surrogate pair. */
  predicate IsAstral(c: char) {
    c as int > 0xFFFF
  }

  /** `s.length`: the number of UTF-16 code units. */
  function Utf16Length(s: string): (n: nat)
    ensures |s| <= n <= 2 * |s|
    ensures n == |s| <==> forall k :: 0 <= k < |s| ==> !IsAstral(s[k])
    ensures |s| == 1 ==> n == (if IsAstral(s[0]) then 2 else 1)
  {
    if s == [] then 0
    else (if IsAstral(s[0]) then 2 else 1) + Utf16Length(s[1..])
  }

  /** Code units add up over concatenation; with the one-character case this
      pins the count down: one unit per character, two per astral one. */
  lemma {:induction false} Utf16LengthAppend(x: string, y: string)
    ensures Utf16Length(x + y) == Utf16Length(x) + Utf16Length(y)
  {
    if x != [] {
      assert (x + y)[0] == x[0];
      assert (x + y)[1..] == x[1..] + y;
      Utf16LengthAppend(x[1..], y);
    } else {
      assert x + y == y;
    }
  }

  predicate IsUpperAscii(c: char) {
    'A' <= c <= 'Z'
  }

  /** `toLowerCase` on one character, for the ASCII letters it changes. */
  function LowerChar(c: char): (d: char)
    ensures !IsUpperAscii(d)
    ensures IsUpperAscii(c) ==> d as int == c as int + 32
    ensures !IsUpperAscii(c) ==> d == c
  {
    if IsUpperAscii(c) then (c as int + 32) as char else c
  }

  /** `s.toLowerCase()` with ASCII case mapping. */
  function ToLower(s: string): (r: string)
    ensures |r| == |s|
    ensures forall k :: 0 <= k < |s| ==> r[k] == LowerChar(s[k])
  {
    if s == [] then [] else [LowerChar(s[0])] + ToLower(s[1..])
  }

  /** Lower-casing twice is lower-casing once. */
  lemma ToLowerIdempotent(s: string)
    ensures ToLower(ToLower(s)) == ToLower(s)
  {
    var l := ToLower(s);
    forall k | 0 <= k < |l|
      ensures ToLower(l)[k] == l[k]
    {
      assert !IsUpperAscii(l[k]);
    }
  }

  lemma {:induction false} ToLowerAppend(x: string, y: string)
    ensures ToLower(x + y) == ToLower(x) + ToLower(y)
  {
    if x != [] {
      assert (x + y)[1..] == x[1..] + y;
      ToLowerAppend(x[1..], y);
    }
  }

  /** `s.replace(/[class]/g, '')`: every character in the class deleted. */
  function Without(s: string, drop: char -> bool): (r: string)
    ensures |r| <= |s|
    ensures forall k :: 0 <= k < |r| ==> !drop(r[k])
    ensures (forall k :: 0 <= k < |s| ==> !drop(s[k])) ==> r == s
    ensures |s| == 1 ==> r == (if drop(s[0]) then [] else s)
  {
    if s == [] then []
    else if drop(s[0]) then Without(s[1..], drop)
    else [s[0]] + Without(s[1..], drop)
  }

  /** Deleting a class only deletes: a property of every input character holds
      of every output character. */
  lemma {:induction false} WithoutKeeps(s: string, drop: char -> bool, p: char -> bool)
    requires forall k :: 0 <= k < |s| ==> p(s[k])
    ensures forall k :: 0 <= k < |Without(s, drop)| ==> p(Without(s, drop)[k])
  {
    if s != [] {
      WithoutKeeps(s[1..], drop, p);
    }
  }

  lemma {:induction false} WithoutAppend(x: string, y: string, drop: char -> bool)
    ensures Without(x + y, drop) == Without(x, drop) + Without(y, drop)
  {
    if x != [] {
      assert (x + y)[0] == x[0];
      assert (x + y)[1..] == x[1..] + y;
      WithoutAppend(x[1..], y, drop);
      if drop(x[0]) {
        assert Without(x + y, drop) == Without(x[1..] + y, drop);
        assert Without(x, drop) == Without(x[1..], drop);
      } else {
        assert Without(x + y, drop) == [x[0]] + Without(x[1..] + y, drop);
        assert Without(x, drop) == [x[0]] + Without(x[1..], drop);
        assert [x[0]] + (Without(x[1..], drop) + Without(y, drop))
          == ([x[0]] + Without(x[1..], drop)) + Without(y, drop);
      }
    } else {
      assert x + y == y;
    }
  }

  /** `s.replace(/to/g, '')`: a single left-to-right pass that deletes each
      non-overlapping occurrence of "to"; letters brought together by a
      deletion are not looked at again, so "ttoo" becomes "to". */
  function WithoutTo(s: string): (r: string)
    ensures |r| <= |s|
    ensures |s| == 1 ==> r == s
  {
    if |s| >= 2 && s[0] == 't' && s[1] == 'o' then WithoutTo(s[2..])
    else if s == [] then []
    else [s[0]] + WithoutTo(s[1..])
  }

  /** The deletion of "to" splits at any boundary that does not fall inside an
      occurrence of "to". */
  lemma {:induction false} WithoutToAppend(x: string, y: string)
    requires NoToAcross(x, y)
    ensures WithoutTo(x + y) == WithoutTo(x) + WithoutTo(y)
    decreases |x|, 1
  {
    if x == [] {
      assert x + y == y;
    } else if |x| >= 2 && x[0] == 't' && x[1] == 'o' {
      WithoutToAppendPair(x, y);
    } else {
      WithoutToAppendSingle(x, y);
    }
  }

  lemma {:induction false} WithoutToAppendPair(x: string, y: string)
    requires |x| >= 2 && x[0] == 't' && x[1] == 'o' && NoToAcross(x, y)
    ensures WithoutTo(x + y) == WithoutTo(x) + WithoutTo(y)
    decreases |x|, 0
  {
    var z := x + y;
    assert z[0] == 't' && z[1] == 'o';
    assert z[2..] == x[2..] + y;
    assert x[2..] == [] || x[2..][|x[2..]| - 1] == x[|x| - 1];
    WithoutToAppend(x[2..], y);
  }

  lemma {:induction false} WithoutToAppendSingle(x: string, y: string)
    requires x != [] && NoToAcross(x, y) && !(|x| >= 2 && x[0] == 't' && x[1] == 'o')
    ensures WithoutTo(x + y) == WithoutTo(x) + WithoutTo(y)
    decreases |x|, 0
  {
    var z := x + y;
    var x', c := x[1..], x[0];
    assert z == [c] + (x' + y);
    assert x == [c] + x';
    NoPairAcross(x, y);
    assert z[0] == c && (|z| >= 2 ==> (x' + y)[0] == z[1]);
    assert x' != [] ==> x'[0] == x[1];
    calc {
      WithoutTo(z);
      { WithoutToCons(c, x' + y); }
      [c] + WithoutTo(x' + y);
      { WithoutToAppend(x', y); }
      [c] + (WithoutTo(x') + WithoutTo(y));
      ([c] + WithoutTo(x')) + WithoutTo(y);
      { WithoutToCons(c, x'); }
      WithoutTo(x) + WithoutTo(y);
    }
  }

  /** No "to" straddles the seam of `x + y`: `x` does not end in 't' where
      `y` starts with 'o'. */
  predicate NoToAcross(x: string, y: string)
  {
    x == [] || y == [] || !(x[|x| - 1] == 't' && y[0] == 'o')
  }

  /** When `x` does not start with "to" and no "to" straddles the seam,
      neither does `x + y` start with "to". */
  lemma NoPairAcross(x: string, y: string)
    requires x != [] && NoToAcross(x, y) && !(|x| >= 2 && x[0] == 't' && x[1] == 'o')
    ensures (x + y)[0] == x[0]
    ensures !(|x + y| >= 2 && (x + y)[0] == 't' && (x + y)[1] == 'o')
    ensures NoToAcross(x[1..], y)
  {
    if |x| >= 2 {
      assert x[1..][|x| - 2] == x[|x| - 1];
      assert (x + y)[1] == x[1];
    } else if y != [] {
      assert (x + y)[1] == y[0];
    }
  }

  lemma WithoutToCons(c: char, w: string)
    requires !(c == 't' && w != [] && w[0] == 'o')
    ensures WithoutTo([c] + w) == [c] + WithoutTo(w)
  {
    assert ([c] + w)[1..] == w;
  }

  /** Every occurrence of "to" is deleted, and the text on either side of it
      is cleaned independently of the other. */
  lemma WithoutToDeletes(x: string, y: string)
    ensures WithoutTo(x + "to" + y) == WithoutTo(x) + WithoutTo(y)
  {
    assert x + "to" + y == x + ("to" + y);
    WithoutToAppend(x, "to" + y);
    assert ("to" + y)[2..] == y;
  }

  /** The deletion of "to" only deletes: every character it keeps was in its
      input, so any property of all input characters holds of the output. */
  lemma {:induction false} WithoutToKeeps(s: string, p: char -> bool)
    requires forall k :: 0 <= k < |s| ==> p(s[k])
    ensures forall k :: 0 <= k < |WithoutTo(s)| ==> p(WithoutTo(s)[k])
  {
    if |s| >= 2 && s[0] == 't' && s[1] == 'o' {
      WithoutToKeeps(s[2..], p);
    } else if s != [] {
      WithoutToKeeps(s[1..], p);
      assert WithoutTo(s) == [s[0]] + WithoutTo(s[1..]);
    }
  }

  /** Text without a 't' holds no "to" and is left as it is. */
  lemma {:induction false} WithoutToSkipsTless(s: string)
    requires forall k :: 0 <= k < |s| ==> s[k] != 't'
    ensures WithoutTo(s) == s
  {
    if s != [] {
      WithoutToSkipsTless(s[1..]);
      assert [s[0]] + s[1..] == s;
    }
  }
}
