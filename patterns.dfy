/**
 * The two input patterns of the forms. Every form tests email addresses
 * against `/^[^\s@]+@[^\s@]+\.[^\s@]+$/`; the profile form also tests phone
 * numbers against `/^[\d\s\-\+\(\)]+$/`.
 *
 * The email pattern is given twice: `MatchesEmailPattern` follows the shape of
 * the regular expression (three runs of `[^\s@]` around an `@` and a `.`),
 * and `IsValidEmail` states the same language character by character.
 * `EmailCharacterisation` proves the two agree on every string.
 */
module Patterns {
  import opened JsText

  /** The class `[^\s@]`. */
  predicate EmailChar(c: char) {
    !IsSpace(c) && c != '@'
  }

  /** `s` is in `[^\s@]*`. */
  predicate AllEmailChars(s: string) {
    forall k :: 0 <= k < |s| ==> EmailChar(s[k])
  }

  /**
   * `^[^\s@]+@[^\s@]+\.[^\s@]+$` read as regular-expression structure: `i` is
   * the position of the `@`, `j` that of the escaped `.`, and the three runs
   * between them are non-empty.
   */
  ghost predicate MatchesEmailPattern(s: string) {
    exists i, j ::
      && 0 < i && i + 1 < j && j + 1 < |s|
      && s[i] == '@' && s[j] == '.'
      && AllEmailChars(s[..i]) && AllEmailChars(s[i + 1..j]) && AllEmailChars(s[j + 1..])
  }

  /** The part after the `@` holds a `.` that is neither its first nor its last character. */
  predicate HasInnerDot(d: string) {
    exists j :: 0 < j < |d| - 1 && d[j] == '.'
  }

  /**
   * The email pattern character by character: no whitespace, exactly one `@`,
   * which is not the first character, and a domain with an inner `.`.
   */
  predicate IsValidEmail(s: string) {
    && (forall k :: 0 <= k < |s| ==> !IsSpace(s[k]))
    && multiset(s)['@'] == 1
    && exists i :: 0 < i < |s| && s[i] == '@' && HasInnerDot(s[i + 1..])
  }

  /** The class `[\d\s\-\+\(\)]`. */
  predicate PhoneChar(c: char) {
    IsDigit(c) || IsSpace(c) || c == '-' || c == '+' || c == '(' || c == ')'
  }

  /** `^[\d\s\-\+\(\)]+$`: non-empty, and every character in the class. */
  predicate IsValidPhone(s: string) {
    |s| > 0 && forall k :: 0 <= k < |s| ==> PhoneChar(s[k])
  }

  /** Splitting `s` around position `i` splits its multiset of characters. */
  lemma {:induction false} MultisetAround(s: string, i: nat)
    requires i < |s|
    ensures multiset(s) == multiset(s[..i]) + multiset{s[i]} + multiset(s[i + 1..])
  {
    assert s == s[..i] + [s[i]] + s[i + 1..];
  }

  /** A character occurring once at position `i` occurs nowhere else. */
  lemma {:induction false} OnlyOccurrence(s: string, i: nat, c: char)
    requires i < |s| && s[i] == c && multiset(s)[c] == 1
    ensures forall k :: 0 <= k < |s| && k != i ==> s[k] != c
  {
    MultisetAround(s, i);
    assert c !in multiset(s[..i]) && c !in multiset(s[i + 1..]);
    forall k | 0 <= k < |s| && k != i ensures s[k] != c {
      if k < i {
        assert s[k] == s[..i][k];
      } else {
        assert s[k] == s[i + 1..][k - (i + 1)];
      }
    }
  }

  /** A character absent on both sides of position `i` occurs there only (or not at all). */
  lemma {:induction false} CountAround(s: string, i: nat, c: char)
    requires i < |s| && s[i] == c
    requires forall k :: 0 <= k < |s| && k != i ==> s[k] != c
    ensures multiset(s)[c] == 1
  {
    MultisetAround(s, i);
    assert c !in s[..i];
    assert c !in s[i + 1..];
  }

  /** `AllEmailChars` of a slice, stated on the positions of the whole string. */
  lemma EmailCharsSlice(s: string, lo: nat, hi: nat)
    requires lo <= hi <= |s|
    ensures AllEmailChars(s[lo..hi]) <==> forall k :: lo <= k < hi ==> EmailChar(s[k])
  {
  }

  /** A string passing the character-level test matches the pattern. */
  lemma {:induction false} ValidEmailMatchesPattern(s: string)
    requires IsValidEmail(s)
    ensures MatchesEmailPattern(s)
  {
    var i :| 0 < i < |s| && s[i] == '@' && HasInnerDot(s[i + 1..]);
    var d := s[i + 1..];
    var jd :| 0 < jd < |d| - 1 && d[jd] == '.';
    var j := i + 1 + jd;
    assert s[j] == d[jd];
    OnlyOccurrence(s, i, '@');
    EmailCharsSlice(s, 0, i);
    EmailCharsSlice(s, i + 1, j);
    EmailCharsSlice(s, j + 1, |s|);
    assert s[j + 1..] == s[j + 1..|s|];
    assert s[..i] == s[0..i];
    assert AllEmailChars(s[..i]) && AllEmailChars(s[i + 1..j]) && AllEmailChars(s[j + 1..]);
    assert 0 < i && i + 1 < j && j + 1 < |s| && s[i] == '@' && s[j] == '.';
  }

  /** A string matching the pattern passes the character-level test. */
  lemma {:induction false} PatternMatchIsValidEmail(s: string)
    requires MatchesEmailPattern(s)
    ensures IsValidEmail(s)
  {
    var i, j :|
      && 0 < i && i + 1 < j && j + 1 < |s|
      && s[i] == '@' && s[j] == '.'
      && AllEmailChars(s[..i]) && AllEmailChars(s[i + 1..j]) && AllEmailChars(s[j + 1..]);
    assert s[j + 1..] == s[j + 1..|s|];
    assert s[..i] == s[0..i];
    EmailCharsSlice(s, 0, i);
    EmailCharsSlice(s, i + 1, j);
    EmailCharsSlice(s, j + 1, |s|);
    forall k | 0 <= k < |s| && k != i ensures s[k] != '@' && !IsSpace(s[k]) {
      if k != j {
        assert EmailChar(s[k]);
      }
    }
    CountAround(s, i, '@');
    var d := s[i + 1..];
    assert d[j - (i + 1)] == s[j];
    assert HasInnerDot(d);
  }

  /** The character-level reading of the email pattern is the pattern itself. */
  lemma EmailCharacterisation(s: string)
    ensures IsValidEmail(s) <==> MatchesEmailPattern(s)
  {
    if IsValidEmail(s) {
      ValidEmailMatchesPattern(s);
    }
    if MatchesEmailPattern(s) {
      PatternMatchIsValidEmail(s);
    }
  }

  /** Every character of a valid email address other than its one `@` is in `[^\s@]`. */
  lemma {:induction false} ValidEmailShape(s: string, i: nat)
    requires IsValidEmail(s) && i < |s| && s[i] == '@'
    ensures 0 < i && AllEmailChars(s[..i]) && AllEmailChars(s[i + 1..])
    ensures HasInnerDot(s[i + 1..])
  {
    OnlyOccurrence(s, i, '@');
    EmailCharsSlice(s, 0, i);
    EmailCharsSlice(s, i + 1, |s|);
    assert s[i + 1..] == s[i + 1..|s|];
    assert s[..i] == s[0..i];
  }
}
