/**
 * The two JavaScript string facts the forms depend on: which characters the
 * regular-expression classes `\s` and `\d` match, and what `String.length`
 * counts.
 */
module JsText {

  /**
   * The class `\s` of a JavaScript regular expression: the WhiteSpace and
   * LineTerminator code points of ECMAScript (sections 12.2 and 12.3 of
   * ECMA-262), where the space separators are Unicode category Zs.
   */
  predicate IsSpace(c: char) {
    || c == '\t' || c == '\n' || c == '\U{000B}' || c == '\U{000C}' || c == '\r'
    || c == ' ' || c == '\U{00A0}' || c == '\U{1680}'
    || ('\U{2000}' <= c <= '\U{200A}')
    || c == '\U{2028}' || c == '\U{2029}' || c == '\U{202F}' || c == '\U{205F}'
    || c == '\U{3000}' || c == '\U{FEFF}'
  }

  /** The class `\d` of a regular expression without the `u` flag: ASCII digits only. */
  predicate IsDigit(c: char) {
    '0' <= c <= '9'
  }

  /** True when `c` lies outside the Basic Multilingual Plane and so takes a surrogate pair. */
  predicate IsAstral(c: char) {
    c as int > 0xFFFF
  }

  /**
   * `s.length` in JavaScript: the number of UTF-16 code units, so a character
   * outside the Basic Multilingual Plane counts twice.
   */
  function Utf16Length(s: string): (n: nat)
    ensures |s| <= n <= 2 * |s|
    ensures n == |s| <==> forall k :: 0 <= k < |s| ==> !IsAstral(s[k])
  {
    if s == [] then 0
    else
      assert forall k :: 1 <= k < |s| ==> s[k] == s[1..][k - 1];
      (if IsAstral(s[0]) then 2 else 1) + Utf16Length(s[1..])
  }

  /** A single character takes two code units when astral and one otherwise. */
  lemma Utf16LengthChar(c: char)
    ensures Utf16Length([c]) == if IsAstral(c) then 2 else 1
  {
  }

  /** `.length` of a concatenation is the sum of the lengths; with `Utf16LengthChar` this fixes its value. */
  lemma {:induction false} Utf16LengthConcat(a: string, b: string)
    ensures Utf16Length(a + b) == Utf16Length(a) + Utf16Length(b)
  {
    if a == [] {
      assert a + b == b;
    } else {
      assert (a + b)[0] == a[0];
      assert (a + b)[1..] == a[1..] + b;
      Utf16LengthConcat(a[1..], b);
    }
  }
}
