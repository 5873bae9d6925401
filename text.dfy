/**
 * JavaScript's `String.prototype.trim`, which the form applies to its title
 * and description. A string is a sequence of Unicode scalar values; the
 * whitespace set is that of ECMAScript's WhiteSpace and LineTerminator
 * productions.
 */
module Text {

  /** TAB, VT, FF, SP, NBSP, ZWNBSP, the other space separators (Zs), LF, CR, LS, PS. */
  predicate IsWhitespace(c: char) {
    || c == '\t' || c == '\U{B}' || c == '\U{C}' || c == ' ' || c == '\U{A0}' || c == '\U{FEFF}'
    || c == '\U{1680}' || ('\U{2000}' <= c <= '\U{200A}') || c == '\U{202F}' || c == '\U{205F}' || c == '\U{3000}'
    || c == '\n' || c == '\r' || c == '\U{2028}' || c == '\U{2029}'
  }

  /** Every character of `s` is whitespace (vacuously so for ""). */
  predicate Blank(s: string) {
    forall i :: 0 <= i < |s| ==> IsWhitespace(s[i])
  }

  /** `s` is not empty and has no whitespace at either end. */
  predicate IsTrimmedNonEmpty(s: string) {
    s != [] && !IsWhitespace(s[0]) && !IsWhitespace(s[|s| - 1])
  }

  /** The number of whitespace characters `s` starts with. */
  function LeadingWhitespace(s: string): (n: nat)
    ensures n <= |s|
    ensures forall i :: 0 <= i < n ==> IsWhitespace(s[i])
    ensures n < |s| ==> !IsWhitespace(s[n])
  {
    if s != [] && IsWhitespace(s[0]) then 1 + LeadingWhitespace(s[1..]) else 0
  }

  /** The number of whitespace characters `s` ends with. */
  function TrailingWhitespace(s: string): (n: nat)
    ensures n <= |s|
    ensures forall i :: |s| - n <= i < |s| ==> IsWhitespace(s[i])
    ensures n < |s| ==> !IsWhitespace(s[|s| - 1 - n])
  {
    if s != [] && IsWhitespace(s[|s| - 1]) then 1 + TrailingWhitespace(s[..|s| - 1]) else 0
  }

  /** `s.trim()`: `s` without its leading and trailing whitespace. */
  function Trim(s: string): (r: string)
    ensures |r| <= |s|
    ensures r == [] <==> Blank(s)
    ensures r != [] ==> IsTrimmedNonEmpty(r)
  {
    var lead := LeadingWhitespace(s);
    if lead == |s| then []
    else
      var trail := TrailingWhitespace(s);
      s[lead..|s| - trail]
  }

  /**
   * `Trim(s)` is the contiguous piece of `s` left once the whitespace around
   * it is taken off: `s` is a blank prefix, then `Trim(s)`, then a blank
   * suffix.
   */
  lemma TrimIsInfix(s: string)
    ensures var r, i := Trim(s), LeadingWhitespace(s);
      i + |r| <= |s| && s[i..i + |r|] == r && Blank(s[..i]) && Blank(s[i + |r|..])
  {
    var r, i := Trim(s), LeadingWhitespace(s);
    if i < |s| {
      var trail := TrailingWhitespace(s);
      assert i + |r| == |s| - trail;
      var tail := s[i + |r|..];
      assert forall k :: 0 <= k < |tail| ==> tail[k] == s[i + |r| + k];
    }
  }

  /** A string without whitespace at its ends is its own trim. */
  lemma TrimLeavesTrimmed(s: string)
    requires IsTrimmedNonEmpty(s)
    ensures Trim(s) == s
  {
    assert LeadingWhitespace(s) == 0;
    assert TrailingWhitespace(s) == 0;
  }

  /** Trimming twice is trimming once. */
  lemma TrimIdempotent(s: string)
    ensures Trim(Trim(s)) == Trim(s)
  {
    if Trim(s) != [] {
      TrimLeavesTrimmed(Trim(s));
    }
  }
}
