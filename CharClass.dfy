/** Character classes and case mapping used by the content analyzer, restricted
    to ASCII: Python's `\w` class, the whitespace recognised by `str.split()`
    and the case mapping of `str.lower()`. */
module CharClass {

  /** Python's `\w` on ASCII: a letter, a digit or the underscore. */
  predicate IsWordChar(c: char) {
    ('a' <= c <= 'z') || ('A' <= c <= 'Z') || ('0' <= c <= '9') || c == '_'
  }

  /** Python's `\W`: the complement of `\w`. */
  predicate NotWord(c: char) {
    !IsWordChar(c)
  }

  predicate IsUpper(c: char) {
    'A' <= c <= 'Z'
  }

  predicate NotUpper(c: char) {
    !IsUpper(c)
  }

  /** The ASCII characters for which `str.isspace()` holds: space, tab, line feed,
      vertical tab, form feed, carriage return and the four separators 0x1C-0x1F. */
  predicate IsSpace(c: char) {
    c == ' ' || (9 <= c as int <= 13) || (28 <= c as int <= 31)
  }

  lemma WordCharIsNotSpace(c: char)
    ensures IsWordChar(c) ==> !IsSpace(c)
  {
  }

  /** `str.lower()` on one ASCII character. */
  function LowerChar(c: char): (r: char)
    ensures !IsUpper(r)
    ensures IsWordChar(r) == IsWordChar(c)
    ensures IsSpace(r) == IsSpace(c)
    ensures !IsUpper(c) ==> r == c
    ensures IsUpper(c) ==> 'a' <= r <= 'z' && r as int - 'a' as int == c as int - 'A' as int
  {
    if IsUpper(c) then (c as int - 'A' as int + 'a' as int) as char else c
  }

  /** `str.lower()`: every upper-case letter is mapped to its lower-case form,
      every other character is kept. */
  function Lower(s: string): (r: string)
    ensures |r| == |s|
    ensures forall i :: 0 <= i < |s| ==> r[i] == LowerChar(s[i])
    ensures forall c :: c in r ==> !IsUpper(c)
  {
    seq(|s|, i requires 0 <= i < |s| => LowerChar(s[i]))
  }

  /** Two characters that are equal, or are the upper- and lower-case forms
      of the same ASCII letter (which lie 32 code points apart). */
  predicate SameCharIgnoringCase(x: char, y: char) {
    x == y
    || (IsUpper(x) && y as int == x as int + 32)
    || (IsUpper(y) && x as int == y as int + 32)
  }

  /** Two strings that differ only in the case of ASCII letters. */
  predicate SameIgnoringCase(a: string, b: string) {
    |a| == |b| && forall i :: 0 <= i < |a| ==> SameCharIgnoringCase(a[i], b[i])
  }

  lemma SameCharIgnoringCaseIff(x: char, y: char)
    ensures SameCharIgnoringCase(x, y) <==> LowerChar(x) == LowerChar(y)
  {
    if LowerChar(x) == LowerChar(y) && IsUpper(x) && IsUpper(y) {
      assert x as int - 'A' as int == y as int - 'A' as int;
    }
  }

  /** Differing only in case is exactly lower-casing to the same string. */
  lemma SameIgnoringCaseIff(a: string, b: string)
    ensures SameIgnoringCase(a, b) <==> Lower(a) == Lower(b)
  {
    if |a| == |b| {
      forall i | 0 <= i < |a|
        ensures SameCharIgnoringCase(a[i], b[i]) <==> Lower(a)[i] == Lower(b)[i]
      {
        SameCharIgnoringCaseIff(a[i], b[i]);
      }
    }
  }

  /** Lower-casing is idempotent. */
  lemma LowerIdempotent(s: string)
    ensures Lower(Lower(s)) == Lower(s)
  {
  }

  /** Lower-casing distributes over concatenation. */
  lemma LowerAppend(a: string, b: string)
    ensures Lower(a + b) == Lower(a) + Lower(b)
  {
  }
}
