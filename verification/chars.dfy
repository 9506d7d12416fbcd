/**
  Character classes used by the validation patterns.

  Characters are Unicode scalar values; the ECMAScript engine works on UTF-16
  code units, which coincide with them for every character of the Basic
  Multilingual Plane.
 */
module Chars {

  /** [a-z] */
  predicate IsLower(c: char) {
    'a' <= c <= 'z'
  }

  /** [A-Z] */
  predicate IsUpper(c: char) {
    'A' <= c <= 'Z'
  }

  /** \d (section 22.2.2.9 of ECMA-262: the ten ASCII digits) */
  predicate IsDigit(c: char) {
    '0' <= c <= '9'
  }

  /** [a-zA-Z0-9] */
  predicate IsAlnum(c: char) {
    IsLower(c) || IsUpper(c) || IsDigit(c)
  }

  /** [A-Fa-f0-9] */
  predicate IsHexDigit(c: char) {
    IsDigit(c) || 'a' <= c <= 'f' || 'A' <= c <= 'F'
  }

  /** LineTerminator (section 12.3 of ECMA-262): LF, CR, LINE SEPARATOR, PARAGRAPH SEPARATOR.
      These are the characters `.` does not match without the `s` flag. */
  predicate IsLineTerminator(c: char) {
    c == '\n' || c == '\r' || c == '\U{2028}' || c == '\U{2029}'
  }

  /** WhiteSpace (section 12.2 of ECMA-262): TAB, VT, FF, ZWNBSP and the
      space separators (Unicode category Zs). */
  predicate IsSpaceChar(c: char) {
    || c == '\t' || c == '\U{000B}' || c == '\U{000C}' || c == '\U{FEFF}'
    || c == ' ' || c == '\U{00A0}' || c == '\U{1680}'
    || ('\U{2000}' <= c <= '\U{200A}')
    || c == '\U{202F}' || c == '\U{205F}' || c == '\U{3000}'
  }

  /** The characters matched by \s: WhiteSpace together with LineTerminator
      (section 22.2.2.9 of ECMA-262). \S matches every other character. */
  predicate IsWhitespace(c: char) {
    IsSpaceChar(c) || IsLineTerminator(c)
  }

  /** The other-case partner of an ASCII letter; every other character is its own partner.
      Under the `i` flag (without `u`), two characters match when they have the same
      canonical upper-case form, and no character at or above U+0080 canonicalises
      below it; so for class members drawn from ASCII, `a` matches `c` exactly when
      `a == c` or `a == OtherCase(c)` (section 22.2.2.7.3 of ECMA-262). */
  function OtherCase(c: char): (r: char)
    ensures IsLower(c) ==> IsUpper(r)
    ensures IsUpper(c) ==> IsLower(r)
    ensures !IsLower(c) && !IsUpper(c) ==> r == c
  {
    if IsLower(c) then (c as int - 32) as char
    else if IsUpper(c) then (c as int + 32) as char
    else c
  }
}
