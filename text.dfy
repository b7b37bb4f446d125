/** Character classes and the string primitives the analyzer relies on:
    the regular-expression classes `[a-zA-Z]`, `\w`, `\s`, ASCII lower-casing
    and `String.prototype.trim`. */
module Text {

  /** `[a-zA-Z]` */
  predicate IsAsciiLetter(c: char) {
    'a' <= c <= 'z' || 'A' <= c <= 'Z'
  }

  predicate IsAsciiUpper(c: char) {
    'A' <= c <= 'Z'
  }

  /** `\w`, which in a regular expression without the `u` flag is `[A-Za-z0-9_]` */
  predicate IsWordChar(c: char) {
    IsAsciiLetter(c) || '0' <= c <= '9' || c == '_'
  }

  /** `\s`: the WhiteSpace and LineTerminator characters of ECMAScript, which are
      also the characters `trim` removes */
  predicate IsSpace(c: char) {
    || c == '\t' || c == '\n' || c == '\U{B}' || c == '\U{C}' || c == '\r' || c == ' '
    || c == '\U{A0}' || c == '\U{1680}' || '\U{2000}' <= c <= '\U{200A}'
    || c == '\U{2028}' || c == '\U{2029}' || c == '\U{202F}' || c == '\U{205F}'
    || c == '\U{3000}' || c == '\U{FEFF}'
  }

  predicate IsNewline(c: char) {
    c == '\n'
  }

  /** `[^\w\s]` */
  predicate IsSymbol(c: char) {
    !IsWordChar(c) && !IsSpace(c)
  }

  /** Number of UTF-16 code units JavaScript stores for `c`: two for a
      character outside the Basic Multilingual Plane (a surrogate pair). */
  function CodeUnits(c: char): nat {
    if c as int < 0x1_0000 then 1 else 2
  }

  /** `s.length` in JavaScript: the number of UTF-16 code units of `s`. It
      equals the number of characters when all of them are in the Basic
      Multilingual Plane. */
  function Utf16Length(s: string): (r: nat)
    ensures |s| <= r <= 2 * |s|
    ensures (forall i :: 0 <= i < |s| ==> CodeUnits(s[i]) == 1) ==> r == |s|
  {
    if s == [] then 0 else CodeUnits(s[0]) + Utf16Length(s[1..])
  }

  /** `toLowerCase` on one character, restricted to the ASCII range */
  function LowerChar(c: char): (r: char)
    ensures !IsAsciiUpper(r)
    ensures IsWordChar(r) == IsWordChar(c) && IsAsciiLetter(r) == IsAsciiLetter(c)
    ensures !IsAsciiUpper(c) ==> r == c
  {
    if IsAsciiUpper(c) then (c as int - 'A' as int + 'a' as int) as char else c
  }

  function Lower(s: string): (r: string)
    ensures |r| == |s|
    ensures forall i :: 0 <= i < |s| ==> r[i] == LowerChar(s[i])
  {
    seq(|s|, i requires 0 <= i < |s| => LowerChar(s[i]))
  }

  /** Length of the longest prefix of `s` whose characters are in the class `p`
      (when `inside`) or all outside it (otherwise). */
  function Run(s: string, p: char -> bool, inside: bool): (r: nat)
    ensures r <= |s|
    ensures forall i :: 0 <= i < r ==> p(s[i]) == inside
    ensures r < |s| ==> p(s[r]) != inside
  {
    if s == [] || p(s[0]) != inside then 0 else 1 + Run(s[1..], p, inside)
  }

  /** Length of the longest suffix of `s` whose characters all satisfy `p`. */
  function RunBack(s: string, p: char -> bool): (r: nat)
    ensures r <= |s|
    ensures forall i :: |s| - r <= i < |s| ==> p(s[i])
    ensures r < |s| ==> !p(s[|s| - r - 1])
  {
    if s == [] || !p(s[|s| - 1]) then 0 else 1 + RunBack(s[..|s| - 1], p)
  }

  /** `trim`: drop leading and trailing whitespace. */
  function Trim(s: string): (r: string)
    ensures |r| <= |s|
    ensures r == [] || (!IsSpace(r[0]) && !IsSpace(r[|r| - 1]))
    ensures exists a, b ::
              && 0 <= a <= b <= |s| && r == s[a..b]
              && (forall i :: 0 <= i < a ==> IsSpace(s[i]))
              && (forall i :: b <= i < |s| ==> IsSpace(s[i]))
    ensures r == [] <==> forall i :: 0 <= i < |s| ==> IsSpace(s[i])
  {
    var a := Run(s, IsSpace, true);
    var t := s[a..];
    var b := a + |t| - RunBack(t, IsSpace);
    assert t[..|t| - RunBack(t, IsSpace)] == s[a..b];
    s[a..b]
  }
}
