/** Splitting strings into maximal runs of characters, and the two string
    operations of the analyzer built from it: the substitution
    `re.sub(r'\W+', ' ', s)` and the whitespace split `s.split()`. */
module Tokenize {
  import opened CharClass

  /** Every character of `s` satisfies `p`. */
  predicate AllChars(s: string, p: char -> bool) {
    forall i :: 0 <= i < |s| ==> p(s[i])
  }

  /** No character of `s` is a separator. */
  predicate NoSep(s: string, sep: char -> bool) {
    forall i :: 0 <= i < |s| ==> !sep(s[i])
  }

  /** The number of separator characters at the start of `s`. */
  function SkipCount(s: string, sep: char -> bool): (n: nat)
    ensures n <= |s|
    ensures AllChars(s[..n], sep)
    ensures n < |s| ==> !sep(s[n])
  {
    if s != [] && sep(s[0]) then 1 + SkipCount(s[1..], sep) else 0
  }

  /** The length of the longest prefix of `s` holding no separator character. */
  function RunLength(s: string, sep: char -> bool): (n: nat)
    ensures n <= |s|
    ensures NoSep(s[..n], sep)
    ensures n < |s| ==> sep(s[n])
  {
    if s == [] || sep(s[0]) then 0 else 1 + RunLength(s[1..], sep)
  }

  /** The maximal runs of non-separator characters of `s`, left to right. */
  function Runs(s: string, sep: char -> bool): seq<string>
    decreases |s|
  {
    var i := SkipCount(s, sep);
    if i == |s| then []
    else
      var j := i + RunLength(s[i..], sep);
      [s[i..j]] + Runs(s[j..], sep)
  }

  /** Python's `s.split()` with no argument: the maximal runs of non-whitespace. */
  function Split(s: string): seq<string> {
    Runs(s, IsSpace)
  }

  /** The maximal runs of word characters (`\w+`) of `s`: the reference
      definition of a "word". */
  function WordRuns(s: string): seq<string> {
    Runs(s, NotWord)
  }

  /** `re.sub(r'\W+', ' ', s)`: every maximal run of non-word characters is
      replaced by one space; word characters are kept in place. */
  function SubNonWord(s: string): (r: string)
    ensures s == [] <==> r == []
    ensures s != [] && NotWord(s[0]) ==> r[0] == ' '
    decreases |s|
  {
    var i := SkipCount(s, NotWord);
    var lead := if i > 0 then " " else "";
    if i == |s| then lead
    else
      var j := i + RunLength(s[i..], NotWord);
      lead + s[i..j] + SubNonWord(s[j..])
  }

  // ---------------------------------------------------------------------------
  // Cutting a string at its first run

  lemma {:induction false} SkipCountOf(a: string, b: string, sep: char -> bool)
    requires AllChars(a, sep)
    requires b == [] || !sep(b[0])
    ensures SkipCount(a + b, sep) == |a|
    decreases |a|
  {
    if a != [] {
      assert (a + b)[0] == a[0];
      assert (a + b)[1..] == a[1..] + b;
      SkipCountOf(a[1..], b, sep);
    } else {
      assert a + b == b;
    }
  }

  lemma {:induction false} RunLengthOf(a: string, b: string, sep: char -> bool)
    requires NoSep(a, sep)
    requires b == [] || sep(b[0])
    ensures RunLength(a + b, sep) == |a|
    decreases |a|
  {
    if a != [] {
      assert (a + b)[0] == a[0];
      assert (a + b)[1..] == a[1..] + b;
      RunLengthOf(a[1..], b, sep);
    } else {
      assert a + b == b;
    }
  }

  /** Cuts `s` at its first run: the leading separators `p`, the run `w`, and
      the `rest`, which is empty or starts with a separator. */
  lemma FirstRun(s: string, sep: char -> bool) returns (p: string, w: string, rest: string)
    requires SkipCount(s, sep) < |s|
    ensures s == p + w + rest && |rest| < |s|
    ensures p == s[..SkipCount(s, sep)]
    ensures AllChars(p, sep)
    ensures w != [] && NoSep(w, sep)
    ensures rest == [] || sep(rest[0])
  {
    var i := SkipCount(s, sep);
    var t := s[i..];
    var n := RunLength(t, sep);
    p, w, rest := s[..i], t[..n], t[n..];
    assert rest != [] ==> rest[0] == t[n];
    assert s == p + t && t == w + rest;
  }

  /** A string of separators only has no runs. */
  lemma RunsOfSeparators(a: string, sep: char -> bool)
    requires AllChars(a, sep)
    ensures Runs(a, sep) == []
  {
    SkipCountOf(a, [], sep);
    assert a + [] == a;
  }

  /** One step of `Runs`: leading separators, a run, then a separator or nothing. */
  lemma RunsUnfold(p: string, w: string, rest: string, sep: char -> bool)
    requires AllChars(p, sep)
    requires w != [] && NoSep(w, sep)
    requires rest == [] || sep(rest[0])
    ensures Runs(p + w + rest, sep) == [w] + Runs(rest, sep)
  {
    var s := p + w + rest;
    assert s == p + (w + rest);
    SkipCountOf(p, w + rest, sep);
    assert s[|p|..] == w + rest;
    RunLengthOf(w, rest, sep);
    assert s[|p|..|p| + |w|] == w;
    assert s[|p| + |w|..] == rest;
  }

  /** A non-empty string without separators is one run. */
  lemma RunsOfRun(w: string, sep: char -> bool)
    requires w != [] && NoSep(w, sep)
    ensures Runs(w, sep) == [w]
  {
    assert [] + w + [] == w;
    RunsUnfold([], w, [], sep);
    RunsOfSeparators([], sep);
  }

  lemma SeparatorsAppend(p: string, q: string, sep: char -> bool)
    requires AllChars(p, sep) && AllChars(q, sep)
    ensures AllChars(p + q, sep)
  {
    forall i | 0 <= i < |p + q| ensures sep((p + q)[i]) {
      if i < |p| {
        assert (p + q)[i] == p[i];
      } else {
        assert (p + q)[i] == q[i - |p|];
      }
    }
  }

  // ---------------------------------------------------------------------------
  // Runs over concatenations

  lemma AppendAssoc<T>(x: seq<T>, y: seq<T>, z: seq<T>)
    ensures x + (y + z) == (x + y) + z
  {
  }

  /** Separators in front of a string add no run. */
  lemma RunsAfterSeparators(p: string, b: string, sep: char -> bool)
    requires AllChars(p, sep)
    ensures Runs(p + b, sep) == Runs(b, sep)
  {
    if SkipCount(b, sep) == |b| {
      assert b[..|b|] == b;
      RunsOfSeparators(b, sep);
      SeparatorsAppend(p, b, sep);
      RunsOfSeparators(p + b, sep);
    } else {
      var q, w, rest := FirstRun(b, sep);
      RunsUnfold(q, w, rest, sep);
      SeparatorsAppend(p, q, sep);
      AppendAssoc(p, q + w, rest);
      AppendAssoc(p, q, w);
      RunsUnfold(p + q, w, rest, sep);
    }
  }

  /** The induction step of `RunsAppend`: a first run followed by a separator. */
  lemma RunsAppendStep(p: string, w: string, ra: string, b: string, sep: char -> bool)
    requires AllChars(p, sep)
    requires w != [] && NoSep(w, sep)
    requires ra != [] && sep(ra[0])
    requires Runs(ra + b, sep) == Runs(ra, sep) + Runs(b, sep)
    ensures Runs(p + w + ra + b, sep) == Runs(p + w + ra, sep) + Runs(b, sep)
  {
    assert p + w + ra + b == p + w + (ra + b);
    RunsUnfold(p, w, ra + b, sep);
    RunsUnfold(p, w, ra, sep);
    AppendAssoc([w], Runs(ra, sep), Runs(b, sep));
  }

  /** The last step of `RunsAppend`: a final run followed by a separator or nothing. */
  lemma RunsAppendLast(p: string, w: string, b: string, sep: char -> bool)
    requires AllChars(p, sep)
    requires w != [] && NoSep(w, sep)
    requires b == [] || sep(b[0])
    ensures Runs(p + w + b, sep) == Runs(p + w, sep) + Runs(b, sep)
  {
    RunsUnfold(p, w, b, sep);
    assert p + w == p + w + [];
    RunsUnfold(p, w, [], sep);
    RunsOfSeparators([], sep);
  }

  /** Runs of a concatenation are the runs of the two parts whenever the parts
      do not glue two runs together: a separator stands at the seam or one of
      the parts is empty. */
  lemma {:induction false} RunsAppend(a: string, b: string, sep: char -> bool)
    requires a == [] || b == [] || sep(a[|a| - 1]) || sep(b[0])
    ensures Runs(a + b, sep) == Runs(a, sep) + Runs(b, sep)
    decreases |a|
  {
    if SkipCount(a, sep) == |a| {
      assert a[..|a|] == a;
      RunsOfSeparators(a, sep);
      RunsAfterSeparators(a, b, sep);
    } else {
      var p, w, ra := FirstRun(a, sep);
      if ra != [] {
        assert ra[|ra| - 1] == a[|a| - 1];
        RunsAppend(ra, b, sep);
        RunsAppendStep(p, w, ra, b, sep);
      } else {
        assert a == p + w;
        assert a[|a| - 1] == w[|w| - 1];
        RunsAppendLast(p, w, b, sep);
      }
    }
  }

  // ---------------------------------------------------------------------------
  // What the runs are made of

  lemma AllCharsParts(p: string, w: string, rest: string, ok: char -> bool)
    requires AllChars(p + w + rest, ok)
    ensures AllChars(w, ok) && AllChars(rest, ok)
  {
    forall i | 0 <= i < |w| ensures ok(w[i]) {
      assert w[i] == (p + w + rest)[|p| + i];
    }
    forall i | 0 <= i < |rest| ensures ok(rest[i]) {
      assert rest[i] == (p + w + rest)[|p| + |w| + i];
    }
  }

  /** Every run is non-empty and holds no separator; and when every character
      of `s` satisfies `ok`, so does every character of every run. */
  lemma {:induction false} RunsShape(s: string, sep: char -> bool, ok: char -> bool)
    requires AllChars(s, ok)
    ensures forall k :: 0 <= k < |Runs(s, sep)| ==>
      Runs(s, sep)[k] != [] && NoSep(Runs(s, sep)[k], sep) && AllChars(Runs(s, sep)[k], ok)
    decreases |s|
  {
    if SkipCount(s, sep) < |s| {
      var p, w, rest := FirstRun(s, sep);
      RunsUnfold(p, w, rest, sep);
      AllCharsParts(p, w, rest, ok);
      RunsShape(rest, sep, ok);
    } else {
      assert s[..|s|] == s;
      RunsOfSeparators(s, sep);
    }
  }

  /** One step of `SubNonWord`: a run of non-word characters becomes one
      space, the following word run is kept. */
  lemma SubNonWordUnfold(p: string, w: string, rest: string)
    requires AllChars(p, NotWord)
    requires w != [] && NoSep(w, NotWord)
    requires rest == [] || NotWord(rest[0])
    ensures SubNonWord(p + w + rest) == (if p == [] then "" else " ") + w + SubNonWord(rest)
  {
    var s := p + w + rest;
    assert s == p + (w + rest);
    SkipCountOf(p, w + rest, NotWord);
    assert s[|p|..] == w + rest;
    RunLengthOf(w, rest, NotWord);
    assert s[|p|..|p| + |w|] == w;
    assert s[|p| + |w|..] == rest;
  }

  /** Every character of the substituted string is a space or a word
      character of `s`. */
  lemma {:induction false} SubNonWordChars(s: string)
    ensures forall c :: c in SubNonWord(s) ==> c == ' ' || (c in s && IsWordChar(c))
    decreases |s|
  {
    if SkipCount(s, NotWord) < |s| {
      var p, w, rest := FirstRun(s, NotWord);
      SubNonWordUnfold(p, w, rest);
      SubNonWordChars(rest);
      forall c | c in w ensures c in s && IsWordChar(c) {
        var m :| 0 <= m < |w| && w[m] == c;
      }
    } else {
      assert s[..|s|] == s;
    }
  }

  // ---------------------------------------------------------------------------
  // `s.split()` after `re.sub(r'\W+', ' ', s)` yields the maximal word runs

  /** The whitespace split of the substituted string is exactly the list of
      maximal word-character runs of the original string. */
  lemma {:induction false} SplitOfSubNonWord(s: string)
    ensures Split(SubNonWord(s)) == WordRuns(s)
    decreases |s|
  {
    var i := SkipCount(s, NotWord);
    var lead := if i > 0 then " " else "";
    assert AllChars(lead, IsSpace);
    if i == |s| {
      assert s[..|s|] == s;
      RunsOfSeparators(lead, IsSpace);
      RunsOfSeparators(s, NotWord);
    } else {
      var p, w, rest := FirstRun(s, NotWord);
      SubNonWordUnfold(p, w, rest);
      RunsUnfold(p, w, rest, NotWord);
      forall k | 0 <= k < |w| ensures !IsSpace(w[k]) {
        WordCharIsNotSpace(w[k]);
      }
      RunsUnfold(lead, w, SubNonWord(rest), IsSpace);
      SplitOfSubNonWord(rest);
    }
  }

  // ---------------------------------------------------------------------------
  // An independent count: the number of positions where a run starts

  /** Scans `s` left to right and counts the positions holding a
      non-separator whose left neighbour is a separator or the start of the
      string; `inRun` says whether the character before `s` was inside a run. */
  function RunStarts(s: string, sep: char -> bool, inRun: bool): nat {
    if s == [] then 0
    else (if !sep(s[0]) && !inRun then 1 else 0) + RunStarts(s[1..], sep, !sep(s[0]))
  }

  lemma {:induction false} RunStartsSeparators(a: string, b: string, sep: char -> bool, inRun: bool)
    requires a != [] && AllChars(a, sep)
    ensures RunStarts(a + b, sep, inRun) == RunStarts(b, sep, false)
    decreases |a|
  {
    assert (a + b)[0] == a[0];
    assert (a + b)[1..] == a[1..] + b;
    if |a| > 1 {
      RunStartsSeparators(a[1..], b, sep, false);
    } else {
      assert a[1..] + b == b;
    }
  }

  lemma {:induction false} RunStartsRun(w: string, b: string, sep: char -> bool, inRun: bool)
    requires w != [] && NoSep(w, sep)
    ensures RunStarts(w + b, sep, inRun) == (if inRun then 0 else 1) + RunStarts(b, sep, true)
    decreases |w|
  {
    assert (w + b)[0] == w[0];
    assert (w + b)[1..] == w[1..] + b;
    if |w| > 1 {
      RunStartsRun(w[1..], b, sep, true);
    } else {
      assert w[1..] + b == b;
    }
  }

  /** The number of runs equals the number of positions where a run starts. */
  lemma {:induction false} RunsCount(s: string, sep: char -> bool)
    ensures |Runs(s, sep)| == RunStarts(s, sep, false)
    decreases |s|
  {
    if SkipCount(s, sep) == |s| {
      assert s[..|s|] == s;
      RunsOfSeparators(s, sep);
      if s != [] {
        assert s + [] == s;
        RunStartsSeparators(s, [], sep, false);
      }
    } else {
      var p, w, rest := FirstRun(s, sep);
      RunsUnfold(p, w, rest, sep);
      AppendAssoc(p, w, rest);
      if p != [] {
        RunStartsSeparators(p, w + rest, sep, false);
      }
      RunStartsRun(w, rest, sep, false);
      RunsCount(rest, sep);
    }
  }
}
