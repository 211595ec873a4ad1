/** Character classes and string helpers shared by the client and the server
    models. Everything here works on Unicode scalar values (`char`). */
module Text {
  import opened Wrappers

  /** `not field` in Python on a request field read with `data.get`: a
      field that is absent or empty is missing. */
  predicate MissingText(t: Option<string>) {
    t.None? || t.value == ""
  }

  /** The characters JavaScript's `String.prototype.trim` removes: the
      WhiteSpace and LineTerminator code points of ECMAScript. */
  predicate IsJsWhitespace(c: char) {
    || c == '\t' || c == '\U{B}' || c == '\U{C}' || c == ' '
    || c == '\U{A0}' || c == '\U{FEFF}' || c == '\U{1680}'
    || ('\U{2000}' <= c <= '\U{200A}')
    || c == '\U{202F}' || c == '\U{205F}' || c == '\U{3000}'
    || c == '\n' || c == '\r' || c == '\U{2028}' || c == '\U{2029}'
  }

  /** The characters for which Python's `str.isspace()` holds, which
      `str.strip()` without an argument removes. */
  predicate IsPyWhitespace(c: char) {
    || ('\t' <= c <= '\r')
    || ('\U{1C}' <= c <= '\U{1F}')
    || c == ' ' || c == '\U{85}' || c == '\U{A0}' || c == '\U{1680}'
    || ('\U{2000}' <= c <= '\U{200A}')
    || c == '\U{2028}' || c == '\U{2029}' || c == '\U{202F}'
    || c == '\U{205F}' || c == '\U{3000}'
  }

  /** `!s.trim()` in JavaScript: the string is empty once trimmed, that is,
      it holds nothing but whitespace. */
  predicate IsBlank(s: string) {
    forall i | 0 <= i < |s| :: IsJsWhitespace(s[i])
  }

  /** Python `s.lstrip()`. */
  function StripStart(s: string): (r: string)
    ensures |r| <= |s|
  {
    if s != [] && IsPyWhitespace(s[0]) then StripStart(s[1..]) else s
  }

  /** `lstrip` removes a prefix made of whitespace, and what is left does
      not start with whitespace. */
  lemma {:induction false} StripStartSpec(s: string)
    ensures StripStart(s) == s[|s| - |StripStart(s)|..]
    ensures StripStart(s) == [] || !IsPyWhitespace(StripStart(s)[0])
    ensures forall i | 0 <= i < |s| - |StripStart(s)| :: IsPyWhitespace(s[i])
  {
    if s != [] && IsPyWhitespace(s[0]) {
      StripStartSpec(s[1..]);
      assert s[1..][|s| - 1 - |StripStart(s)|..] == s[|s| - |StripStart(s)|..];
      forall i | 0 < i < |s| - |StripStart(s)|
        ensures IsPyWhitespace(s[i])
      {
        assert s[i] == s[1..][i - 1];
      }
    }
  }

  /** Python `s.rstrip()`. */
  function StripEnd(s: string): (r: string)
    ensures |r| <= |s|
  {
    if s != [] && IsPyWhitespace(s[|s| - 1]) then StripEnd(s[..|s| - 1]) else s
  }

  /** `rstrip` removes a suffix made of whitespace, and what is left does
      not end with whitespace. */
  lemma {:induction false} StripEndSpec(s: string)
    ensures StripEnd(s) == s[..|StripEnd(s)|]
    ensures StripEnd(s) == [] || !IsPyWhitespace(StripEnd(s)[|StripEnd(s)| - 1])
    ensures forall i | |StripEnd(s)| <= i < |s| :: IsPyWhitespace(s[i])
  {
    if s != [] && IsPyWhitespace(s[|s| - 1]) {
      StripEndSpec(s[..|s| - 1]);
      assert s[..|s| - 1][..|StripEnd(s)|] == s[..|StripEnd(s)|];
      forall i | |StripEnd(s)| <= i < |s| - 1
        ensures IsPyWhitespace(s[i])
      {
        assert s[i] == s[..|s| - 1][i];
      }
    }
  }

  /** Python `s.strip()`. */
  function Strip(s: string): (r: string)
    ensures |r| <= |s|
  {
    StripEnd(StripStart(s))
  }

  /** `strip` yields the longest middle part of `s` that neither starts nor
      ends with whitespace: the result is what `lstrip` leaves, cut short
      at the end; its ends are not whitespace; and it is empty exactly when
      `s` is all whitespace. */
  lemma StripSpec(s: string)
    ensures Strip(s) == s[|s| - |StripStart(s)|..][..|Strip(s)|]
    ensures Strip(s) != [] ==> !IsPyWhitespace(Strip(s)[0]) && !IsPyWhitespace(Strip(s)[|Strip(s)| - 1])
    ensures Strip(s) == [] <==> forall i | 0 <= i < |s| :: IsPyWhitespace(s[i])
  {
    var t := StripStart(s);
    StripStartSpec(s);
    StripEndSpec(t);
    var r := Strip(s);
    if r == [] {
      assert t == [];
    } else {
      assert r[0] == t[0];
    }
  }

  predicate IsAsciiDigit(c: char) {
    '0' <= c <= '9'
  }

  predicate AllDigits(s: string) {
    forall i | 0 <= i < |s| :: IsAsciiDigit(s[i])
  }

  /** The value of a run of decimal digits, as Python's `int()` reads it
      (leading zeros allowed). */
  function DigitsValue(s: string): (n: nat)
    requires AllDigits(s)
  {
    if s == [] then 0
    else DigitsValue(s[..|s| - 1]) * 10 + (s[|s| - 1] as int - '0' as int)
  }

  /** JavaScript `s.length`: the number of UTF-16 code units, where a code
      point above U+FFFF takes two. */
  function Utf16Length(s: string): (n: nat)
    ensures |s| <= n <= 2 * |s|
    ensures (forall i | 0 <= i < |s| :: s[i] as int <= 0xFFFF) ==> n == |s|
  {
    if s == [] then 0
    else (if s[0] as int > 0xFFFF then 2 else 1) + Utf16Length(s[1..])
  }

  /** JavaScript `parts.join(sep)` over an array of strings. */
  function Join(parts: seq<string>, sep: string): (r: string)
    ensures parts == [] ==> r == ""
    ensures |parts| == 1 ==> r == parts[0]
    ensures parts != [] ==> |r| == TotalLength(parts) + |sep| * (|parts| - 1)
  {
    if |parts| == 0 then ""
    else if |parts| == 1 then parts[0]
    else parts[0] + sep + Join(parts[1..], sep)
  }

  function TotalLength(parts: seq<string>): nat {
    if parts == [] then 0 else |parts[0]| + TotalLength(parts[1..])
  }

  /** A code point counts one code unit, or two (a surrogate pair) above
      U+FFFF, wherever it stands in the string. */
  lemma {:induction false} Utf16LengthAppend(s: string, c: char)
    ensures Utf16Length(s + [c]) == Utf16Length(s) + (if c as int > 0xFFFF then 2 else 1)
  {
    if s != [] {
      assert (s + [c])[1..] == s[1..] + [c];
      Utf16LengthAppend(s[1..], c);
    }
  }

  /** Joining one more part appends the separator and that part, so the
      parts appear in their order, each separated from the next by `sep`. */
  lemma {:induction false} JoinAppend(parts: seq<string>, p: string, sep: string)
    requires parts != []
    ensures Join(parts + [p], sep) == Join(parts, sep) + sep + p
  {
    if |parts| > 1 {
      assert (parts + [p])[1..] == parts[1..] + [p];
      JoinAppend(parts[1..], p, sep);
    }
  }
}
