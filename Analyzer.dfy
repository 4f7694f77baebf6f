/** The content metrics analyzer: from a text, a target keyword and a
    readability score, the keyword frequency, the keyword density and the
    ordered list of improvement suggestions. */
module Analyzer {
  import opened CharClass
  import opened Tokenize

  /** A density below this percentage asks for more uses of the keyword. */
  const DensityThreshold: real := 2.0

  /** A readability score below this value asks for simpler language. */
  const ReadabilityThreshold: real := 60.0

  const ReadabilityMessage: string := "The content may be hard to read. Consider simplifying the language."

  /** The suggestion that quotes the target keyword as the user typed it. */
  function DensityMessage(targetKeyword: string): string {
    "Increase the usage of the target keyword '" + targetKeyword + "' to improve keyword density."
  }

  /** What the analyzer returns, in the order of the source's 4-tuple. */
  datatype Analysis = Analysis(
    keywordFrequency: nat,
    keywordDensity: real,
    readabilityScore: real,
    suggestions: seq<string>)

  /** A token as the analyzer counts it: a non-empty run of lower-case word
      characters (letters, digits, underscore). */
  predicate IsToken(t: string) {
    t != [] && forall i :: 0 <= i < |t| ==> IsWordChar(t[i]) && !IsUpper(t[i])
  }

  /** The words of the content: lower-cased, every non-word run replaced by a
      space, then split on whitespace. */
  function Tokens(content: string): seq<string> {
    Split(SubNonWord(Lower(content)))
  }

  /** The `Counter` of the tokens. */
  function WordCount(content: string): multiset<string> {
    multiset(Tokens(content))
  }

  /** The sum of the counter's values. */
  function TotalWords(content: string): nat {
    |WordCount(content)|
  }

  /** The counter's entry for the lower-cased keyword, 0 when it is absent. */
  function KeywordFrequency(content: string, targetKeyword: string): nat {
    WordCount(content)[Lower(targetKeyword)]
  }

  /** Percentage of the words that are the keyword; 0 when there are no words. */
  function KeywordDensity(frequency: nat, totalWords: nat): (d: real)
    ensures totalWords == 0 ==> d == 0.0
    ensures totalWords > 0 ==> d * (totalWords as real) == 100.0 * (frequency as real)
    ensures frequency <= totalWords ==> 0.0 <= d <= 100.0
  {
    if totalWords > 0 then (frequency as real / totalWords as real) * 100.0 else 0.0
  }

  /** No use of the keyword, no density. */
  lemma DensityOfZero(totalWords: nat)
    ensures KeywordDensity(0, totalWords) == 0.0
  {
  }

  /** The density is below the 2 percent threshold exactly when there are no
      words or fewer than one word in fifty is the keyword. */
  lemma DensityThresholdIff(frequency: nat, totalWords: nat)
    ensures KeywordDensity(frequency, totalWords) < DensityThreshold
        <==> totalWords == 0 || 50 * frequency < totalWords
  {
    if totalWords > 0 {
      var d := KeywordDensity(frequency, totalWords);
      var t := totalWords as real;
      ScaleBelow(d, t, 2.0);
      assert d * t == 100.0 * (frequency as real);
      assert d < 2.0 <==> 100.0 * (frequency as real) < 2.0 * t;
      assert 100.0 * (frequency as real) < 2.0 * t <==> 50 * frequency < totalWords;
    }
  }

  /** Multiplying by a positive factor keeps a strict comparison. */
  lemma ScaleBelow(x: real, t: real, bound: real)
    requires t > 0.0
    ensures x < bound <==> x * t < bound * t
  {
    if x < bound {
      assert (bound - x) * t > 0.0;
    } else {
      assert (x - bound) * t >= 0.0;
    }
  }

  /** At most two suggestions, the density one first. */
  function Suggestions(targetKeyword: string, density: real, readability: real): (r: seq<string>)
    ensures |r| == (if density < DensityThreshold then 1 else 0) + (if readability < ReadabilityThreshold then 1 else 0)
    ensures DensityMessage(targetKeyword) in r <==> density < DensityThreshold
    ensures ReadabilityMessage in r <==> readability < ReadabilityThreshold
    ensures density < DensityThreshold ==> r[0] == DensityMessage(targetKeyword)
    ensures forall m :: m in r ==> m == DensityMessage(targetKeyword) || m == ReadabilityMessage
  {
    MessagesDiffer(targetKeyword);
    (if density < DensityThreshold then [DensityMessage(targetKeyword)] else [])
      + (if readability < ReadabilityThreshold then [ReadabilityMessage] else [])
  }

  lemma MessagesDiffer(targetKeyword: string)
    ensures DensityMessage(targetKeyword) != ReadabilityMessage
  {
    assert |ReadabilityMessage| == 67;
    assert |DensityMessage(targetKeyword)| == 71 + |targetKeyword|;
  }

  /** The counter holds the word runs of the lower-cased text. */
  lemma WordsOfContent(content: string, targetKeyword: string)
    ensures WordCount(content) == multiset(WordRuns(Lower(content)))
    ensures TotalWords(content) == |WordRuns(Lower(content))|
    ensures KeywordFrequency(content, targetKeyword) <= TotalWords(content)
  {
    SplitOfSubNonWord(Lower(content));
    MultiplicityAtMostLength(Tokens(content), Lower(targetKeyword));
  }

  /** The analysis of one text. The readability score is computed elsewhere
      from the raw text and is passed in. */
  function AnalyzeContent(content: string, targetKeyword: string, readabilityScore: real): (r: Analysis)
    ensures r.keywordFrequency == multiset(WordRuns(Lower(content)))[Lower(targetKeyword)]
    ensures r.keywordFrequency <= |WordRuns(Lower(content))|
    ensures r.keywordDensity == KeywordDensity(r.keywordFrequency, |WordRuns(Lower(content))|)
    ensures 0.0 <= r.keywordDensity <= 100.0
    ensures r.readabilityScore == readabilityScore
    ensures r.suggestions == Suggestions(targetKeyword, r.keywordDensity, readabilityScore)
  {
    WordsOfContent(content, targetKeyword);
    var keywordFrequency := KeywordFrequency(content, targetKeyword);
    var totalWords := TotalWords(content);
    var keywordDensity := KeywordDensity(keywordFrequency, totalWords);
    Analysis(keywordFrequency, keywordDensity, readabilityScore,
             Suggestions(targetKeyword, keywordDensity, readabilityScore))
  }

  // ---------------------------------------------------------------------------
  // Counting

  /** No element occurs more often than the sequence is long. */
  lemma {:induction false} MultiplicityAtMostLength<T>(s: seq<T>, x: T)
    ensures multiset(s)[x] <= |s|
  {
    if s != [] {
      var last := |s| - 1;
      assert s == s[..last] + [s[last]];
      MultiplicityAtMostLength(s[..last], x);
    }
  }

  /** The tokens are exactly the maximal word runs of the lower-cased content,
      and every one of them is a non-empty run of lower-case word characters. */
  lemma TokensAreWordRuns(content: string)
    ensures Tokens(content) == WordRuns(Lower(content))
    ensures forall k :: 0 <= k < |Tokens(content)| ==> IsToken(Tokens(content)[k])
  {
    SplitOfSubNonWord(Lower(content));
    var s := Lower(content);
    assert AllChars(s, NotUpper);
    RunsShape(s, NotWord, NotUpper);
    forall k | 0 <= k < |Tokens(content)| ensures IsToken(Tokens(content)[k]) {
      var t := Tokens(content)[k];
      assert NoSep(t, NotWord) && AllChars(t, NotUpper);
    }
  }

  /** Lower-casing does not move any run boundary. */
  lemma {:induction false} RunStartsLower(s: string, inRun: bool)
    ensures RunStarts(Lower(s), NotWord, inRun) == RunStarts(s, NotWord, inRun)
    decreases |s|
  {
    if s != [] {
      assert Lower(s)[1..] == Lower(s[1..]);
      RunStartsLower(s[1..], IsWordChar(s[0]));
    }
  }

  /** The total word count is the number of maximal word-character runs of
      the content, counted as the positions where such a run starts. */
  lemma TotalWordsIsRunCount(content: string)
    ensures TotalWords(content) == |WordRuns(Lower(content))|
    ensures TotalWords(content) == RunStarts(content, NotWord, false)
  {
    TokensAreWordRuns(content);
    RunsCount(Lower(content), NotWord);
    RunStartsLower(content, false);
  }

  // ---------------------------------------------------------------------------
  // The keyword

  /** A keyword that is empty or holds a non-word character (a space,
      punctuation) is never counted, whatever the content; the density is
      then 0 and the density suggestion is always the first one. */
  lemma KeywordWithSeparatorNeverMatches(content: string, targetKeyword: string, readabilityScore: real)
    requires targetKeyword == [] || exists i :: 0 <= i < |targetKeyword| && NotWord(targetKeyword[i])
    ensures AnalyzeContent(content, targetKeyword, readabilityScore).keywordFrequency == 0
    ensures AnalyzeContent(content, targetKeyword, readabilityScore).keywordDensity == 0.0
    ensures AnalyzeContent(content, targetKeyword, readabilityScore).suggestions[0] == DensityMessage(targetKeyword)
  {
    var key := Lower(targetKeyword);
    assert !IsToken(key) by {
      if targetKeyword != [] {
        var i :| 0 <= i < |targetKeyword| && NotWord(targetKeyword[i]);
        assert NotWord(key[i]);
      }
    }
    TokensAreWordRuns(content);
    assert key !in Tokens(content);
    assert WordCount(content)[key] == 0;
    DensityOfZero(|WordRuns(Lower(content))|);
  }

  /** A keyword made of word characters alone is the one word of the text
      that consists of it: frequency 1, density 100. */
  lemma KeywordAloneMatches(targetKeyword: string, readabilityScore: real)
    requires targetKeyword != []
    requires forall i :: 0 <= i < |targetKeyword| ==> IsWordChar(targetKeyword[i])
    ensures AnalyzeContent(targetKeyword, targetKeyword, readabilityScore).keywordFrequency == 1
    ensures AnalyzeContent(targetKeyword, targetKeyword, readabilityScore).keywordDensity == 100.0
  {
    OneWord(targetKeyword, targetKeyword);
    WordsOfContent(targetKeyword, targetKeyword);
  }

  /** Keywords that differ only in the case of ASCII letters give the same
      frequency, the same density and the same kinds of suggestion. */
  lemma KeywordCaseInsensitive(content: string, k1: string, k2: string, readabilityScore: real)
    requires SameIgnoringCase(k1, k2)
    ensures AnalyzeContent(content, k1, readabilityScore).keywordFrequency
         == AnalyzeContent(content, k2, readabilityScore).keywordFrequency
    ensures AnalyzeContent(content, k1, readabilityScore).keywordDensity
         == AnalyzeContent(content, k2, readabilityScore).keywordDensity
    ensures |AnalyzeContent(content, k1, readabilityScore).suggestions|
         == |AnalyzeContent(content, k2, readabilityScore).suggestions|
  {
    SameIgnoringCaseIff(k1, k2);
  }

  /** Contents that differ only in the case of ASCII letters give the same
      analysis. */
  lemma ContentCaseInsensitive(c1: string, c2: string, targetKeyword: string, readabilityScore: real)
    requires SameIgnoringCase(c1, c2)
    ensures AnalyzeContent(c1, targetKeyword, readabilityScore)
         == AnalyzeContent(c2, targetKeyword, readabilityScore)
  {
    SameIgnoringCaseIff(c1, c2);
  }

  // ---------------------------------------------------------------------------
  // Composition

  /** Two texts that meet at a non-word character (or of which one is empty)
      add up: the words, and the uses of the keyword, of the whole are those of
      the parts. */
  lemma CountsAppend(a: string, b: string, targetKeyword: string)
    requires a == [] || b == [] || NotWord(a[|a| - 1]) || NotWord(b[0])
    ensures TotalWords(a + b) == TotalWords(a) + TotalWords(b)
    ensures KeywordFrequency(a + b, targetKeyword) == KeywordFrequency(a, targetKeyword) + KeywordFrequency(b, targetKeyword)
  {
    LowerAppend(a, b);
    var la, lb := Lower(a), Lower(b);
    assert la == [] || lb == [] || NotWord(la[|la| - 1]) || NotWord(lb[0]);
    RunsAppend(la, lb, NotWord);
    TokensAreWordRuns(a);
    TokensAreWordRuns(b);
    TokensAreWordRuns(a + b);
    assert Tokens(a + b) == Tokens(a) + Tokens(b);
  }

  /** The keyword the input form offers by default. */
  const DefaultKeyword: string := "AI content optimization"

  /** The default keyword holds spaces, so it is never counted: its frequency
      and density are 0 for every content. */
  lemma DefaultKeywordNeverMatches(content: string, readabilityScore: real)
    ensures AnalyzeContent(content, DefaultKeyword, readabilityScore).keywordFrequency == 0
    ensures AnalyzeContent(content, DefaultKeyword, readabilityScore).keywordDensity == 0.0
  {
    assert DefaultKeyword[2] == ' ';
    assert NotWord(DefaultKeyword[2]);
    KeywordWithSeparatorNeverMatches(content, DefaultKeyword, readabilityScore);
  }

  /** A single word is one word of the text, and one use of the keyword when
      it is the keyword up to case. */
  lemma OneWord(w: string, targetKeyword: string)
    requires w != []
    requires forall i :: 0 <= i < |w| ==> IsWordChar(w[i])
    ensures TotalWords(w) == 1
    ensures KeywordFrequency(w, targetKeyword) == if Lower(w) == Lower(targetKeyword) then 1 else 0
  {
    var key := Lower(w);
    assert NoSep(key, NotWord);
    RunsOfRun(key, NotWord);
    TokensAreWordRuns(w);
    assert Tokens(w) == [key];
  }

  /** Text without word characters holds no words. */
  lemma NoWord(p: string, targetKeyword: string)
    requires forall i :: 0 <= i < |p| ==> NotWord(p[i])
    ensures TotalWords(p) == 0
    ensures KeywordFrequency(p, targetKeyword) == 0
  {
    assert AllChars(Lower(p), NotWord);
    RunsOfSeparators(Lower(p), NotWord);
    TokensAreWordRuns(p);
  }

  /** The pieces of the worked example below, one at a time. */
  lemma UnderscoreExamplePieces()
    ensures TotalWords("Hi") == 1 && KeywordFrequency("Hi", "HI") == 1
    ensures TotalWords("hi_x") == 1 && KeywordFrequency("hi_x", "HI") == 0
    ensures TotalWords(", ") == 0 && KeywordFrequency(", ", "HI") == 0
    ensures TotalWords("!") == 0 && KeywordFrequency("!", "HI") == 0
  {
    assert forall i :: 0 <= i < |"Hi"| ==> IsWordChar("Hi"[i]);
    assert forall i :: 0 <= i < |"hi_x"| ==> IsWordChar("hi_x"[i]);
    assert forall i :: 0 <= i < |", "| ==> NotWord(", "[i]);
    assert forall i :: 0 <= i < |"!"| ==> NotWord("!"[i]);
    assert Lower("Hi") == Lower("HI");
    assert |Lower("hi_x")| != |Lower("HI")|;
    OneWord("Hi", "HI");
    OneWord("hi_x", "HI");
    NoWord(", ", "HI");
    NoWord("!", "HI");
  }

  /** The counts of the worked example below, built up piece by piece. */
  lemma UnderscoreExampleCounts()
    ensures TotalWords("Hi" + ", " + "hi_x" + "!") == 2
    ensures KeywordFrequency("Hi" + ", " + "hi_x" + "!", "HI") == 1
  {
    var k := "HI";
    var a, b := "Hi" + ", ", "Hi" + ", " + "hi_x";
    assert NotWord(", "[0]) && NotWord("!"[0]) && NotWord(a[|a| - 1]);
    UnderscoreExamplePieces();
    CountsAppend("Hi", ", ", k);
    CountsAppend(a, "hi_x", k);
    CountsAppend(b, "!", k);
  }

  /** A small worked example: in "Hi, hi_x!" the words are "hi" and "hi_x"
      (the underscore is a word character), so the keyword "HI" is one of two
      words, a density of 50 percent. */
  lemma UnderscoreExample(readabilityScore: real)
    ensures TotalWords("Hi, hi_x!") == 2
    ensures AnalyzeContent("Hi, hi_x!", "HI", readabilityScore).keywordFrequency == 1
    ensures AnalyzeContent("Hi, hi_x!", "HI", readabilityScore).keywordDensity == 50.0
  {
    assert "Hi" + ", " + "hi_x" + "!" == "Hi, hi_x!";
    UnderscoreExampleCounts();
    WordsOfContent("Hi, hi_x!", "HI");
  }

  /** A keyword written on its own in the text, between non-word characters or
      the ends of the text, is counted once more than in what surrounds it. */
  lemma StandaloneKeywordCounted(before: string, targetKeyword: string, after: string, readabilityScore: real)
    requires targetKeyword != []
    requires forall i :: 0 <= i < |targetKeyword| ==> IsWordChar(targetKeyword[i])
    requires before == [] || NotWord(before[|before| - 1])
    requires after == [] || NotWord(after[0])
    ensures AnalyzeContent(before + targetKeyword + after, targetKeyword, readabilityScore).keywordFrequency
         == KeywordFrequency(before, targetKeyword) + 1 + KeywordFrequency(after, targetKeyword)
    ensures AnalyzeContent(before + targetKeyword + after, targetKeyword, readabilityScore).keywordFrequency >= 1
  {
    var k := targetKeyword;
    KeywordAloneMatches(k, readabilityScore);
    CountsAppend(before, k, k);
    CountsAppend(before + k, after, k);
  }

  // ---------------------------------------------------------------------------
  // Density and suggestions

  /** The density suggestion appears exactly when there are no words or fewer
      than one in fifty words is the keyword. */
  lemma DensityBelowThreshold(content: string, targetKeyword: string, readabilityScore: real)
    ensures var r := AnalyzeContent(content, targetKeyword, readabilityScore);
      (r.keywordDensity < DensityThreshold <==> TotalWords(content) == 0 || 50 * r.keywordFrequency < TotalWords(content))
  {
    WordsOfContent(content, targetKeyword);
    DensityThresholdIff(KeywordFrequency(content, targetKeyword), TotalWords(content));
  }

  /** Empty content: no words, density 0, and the density suggestion first;
      the readability suggestion follows exactly when the score is below 60. */
  lemma EmptyContent(targetKeyword: string, readabilityScore: real)
    ensures var r := AnalyzeContent("", targetKeyword, readabilityScore);
      && r.keywordFrequency == 0
      && r.keywordDensity == 0.0
      && r.suggestions[0] == DensityMessage(targetKeyword)
      && |r.suggestions| == if readabilityScore < ReadabilityThreshold then 2 else 1
  {
    RunsOfSeparators(Lower(""), NotWord);
    DensityOfZero(0);
  }
}
