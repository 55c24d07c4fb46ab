/** JavaScript's string primitives as the pages use them: `\s` and `trim` (the
    WhiteSpace and LineTerminator code points of ECMAScript), `length` (UTF-16
    code units), the character-class tests of `validatePassword` and the
    unanchored email test `/\S+@\S+\.\S+/`. */
module JsText {
  import PyText

  /** `\s` in a JavaScript regular expression; also what `trim` removes. */
  predicate IsJsSpace(c: char) {
    ('\t' <= c <= '\r') || c == ' ' || c == '\U{A0}' || c == '\U{1680}'
    || ('\U{2000}' <= c <= '\U{200A}') || c == '\U{2028}' || c == '\U{2029}'
    || c == '\U{202F}' || c == '\U{205F}' || c == '\U{3000}' || c == '\U{FEFF}'
  }

  /** `s.trim()`: the class-stripping of `s` for the JavaScript whitespace class. */
  function Trim(s: string): (r: string)
    ensures |r| <= |s|
    ensures r == [] || (!IsJsSpace(r[0]) && !IsJsSpace(r[|r| - 1]))
  {
    PyText.Strip(s, IsJsSpace)
  }

  /** Every character of `s` is whitespace (true of the empty string). */
  predicate AllSpace(s: string) {
    forall i :: 0 <= i < |s| ==> IsJsSpace(s[i])
  }

  /** `!s.trim()` holds exactly when `s` is whitespace only. */
  lemma TrimEmptyIff(s: string)
    ensures Trim(s) == [] <==> AllSpace(s)
  {
    var t := PyText.SkipRun(s, IsJsSpace);
    PyText.SkipRunDropsRun(s, IsJsSpace);
    PyText.StripRightDropsRun(t, IsJsSpace);
    if AllSpace(s) {
      PyText.SkipRunOfRun(s, IsJsSpace);
    }
    if Trim(s) == [] {
      assert t == [];
    }
  }

  /** Code points above the Basic Multilingual Plane take two UTF-16 code units. */
  function Utf16Units(c: char): (n: nat)
    ensures n == 1 || n == 2
  {
    if c <= '\U{FFFF}' then 1 else 2
  }

  /** `s.length`: the number of UTF-16 code units of `s`. */
  function Utf16Length(s: string): (n: nat)
    ensures |s| <= n <= 2 * |s|
  {
    if s == [] then 0 else Utf16Units(s[0]) + Utf16Length(s[1..])
  }

  /** On the Basic Multilingual Plane `length` counts characters. */
  lemma {:induction false} Utf16LengthOfBmp(s: string)
    requires forall i :: 0 <= i < |s| ==> s[i] <= '\U{FFFF}'
    ensures Utf16Length(s) == |s|
  {
    if s != [] {
      Utf16LengthOfBmp(s[1..]);
    }
  }

  /** `/[A-Z]/.test(s)`. */
  predicate HasUpper(s: string) {
    exists i :: 0 <= i < |s| && 'A' <= s[i] <= 'Z'
  }

  /** `/[a-z]/.test(s)`. */
  predicate HasLower(s: string) {
    exists i :: 0 <= i < |s| && 'a' <= s[i] <= 'z'
  }

  /** `/[0-9]/.test(s)`. */
  predicate HasDigit(s: string) {
    exists i :: 0 <= i < |s| && '0' <= s[i] <= '9'
  }

  predicate IsAsciiAlnum(c: char) {
    ('A' <= c <= 'Z') || ('a' <= c <= 'z') || ('0' <= c <= '9')
  }

  /** `/[^A-Za-z0-9]/.test(s)`; a code point outside the BMP is tested through its
      surrogate code units, which are outside these ranges as well. */
  predicate HasSpecial(s: string) {
    exists i :: 0 <= i < |s| && !IsAsciiAlnum(s[i])
  }

  /** `/\S+@\S+\.\S+/` matches the piece of `s` around the '@' at `at` and the '.' at `dot`. */
  predicate EmailMatchAt(s: string, at: int, dot: int) {
    1 <= at && at + 1 < dot && dot + 1 < |s|
    && s[at] == '@' && s[dot] == '.'
    && !IsJsSpace(s[at - 1]) && !IsJsSpace(s[dot + 1])
    && forall i :: at < i < dot ==> !IsJsSpace(s[i])
  }

  /** `/\S+@\S+\.\S+/.test(s)`: the pattern is not anchored, so a match anywhere counts. */
  predicate EmailLike(s: string) {
    exists at, dot :: 0 <= at < |s| && 0 <= dot < |s| && EmailMatchAt(s, at, dot)
  }

  /** Being unanchored, the test still passes with anything around the address. */
  lemma EmailLikeUnanchored(s: string, before: string, after: string)
    requires EmailLike(s)
    ensures EmailLike(before + s + after)
  {
    var at, dot :| 0 <= at < |s| && 0 <= dot < |s| && EmailMatchAt(s, at, dot);
    var t := before + s + after;
    var k := |before|;
    assert |t| == k + |s| + |after|;
    assert forall i :: k <= i < k + |s| ==> t[i] == s[i - k];
    assert t[k + at] == '@' && t[k + dot] == '.';
    assert t[k + at - 1] == s[at - 1] && t[k + dot + 1] == s[dot + 1];
    assert EmailMatchAt(t, k + at, k + dot);
  }

  /** Without a '@' nothing matches. */
  lemma EmailNeedsAt(s: string)
    requires forall i :: 0 <= i < |s| ==> s[i] != '@'
    ensures !EmailLike(s)
  {
  }

  /** The shortest accepted address. */
  lemma EmailShortest()
    ensures EmailLike("a@b.c")
  {
    assert EmailMatchAt("a@b.c", 1, 3);
  }

  /** A space right after the '@' breaks the only candidate match. */
  lemma EmailSpaceAfterAt()
    ensures !EmailLike("a@ b.c")
  {
    var s := "a@ b.c";
    forall at, dot | EmailMatchAt(s, at, dot) ensures false {
      assert at == 1;
      assert IsJsSpace(s[2]);
    }
  }
}
