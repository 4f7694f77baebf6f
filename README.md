# everseo content analyzer: a Dafny model

This project models `analyze_content`, the content-metrics core of the everseo
content-optimisation tool. The function takes a text and a target keyword and
returns four values:

- the keyword frequency: how often the keyword occurs as a whole word, ignoring case;
- the keyword density: what percentage of all words the keyword makes up;
- the readability score;
- an ordered list of at most two suggestions. The keyword suggestion appears
  when the density is below 2 percent. The readability suggestion appears when
  the score is below 60.

The source's pipeline has four steps:

1. lower-case the text;
2. replace every run of non-word characters by one space;
3. split on whitespace;
4. count the words with a `Counter`.

The model covers each step:

- `CharClass` holds the character classes and the lower-casing.
- `Tokenize` holds the generic maximal-run splitter `Runs`. It defines the
  substitution (`SubNonWord`), the whitespace split (`Split`) and the reference
  notion of a word (`WordRuns`, the maximal runs of word characters). It proves
  that splitting the substituted text yields exactly those word runs.
- `Analyzer` holds the analysis itself and its properties:
  - letter case in the keyword does not change the frequency or the density;
  - letter case in the content does not change the frequency or the density,
    and for the same readability score it does not change the suggestions
    (the source computes that score from the raw text, so texts that differ
    in case may get different scores);
  - the frequency is at most the number of words;
  - the density lies between 0 and 100 percent;
  - the suggestion rules hold;
  - a keyword containing a space or punctuation is never counted (this is the
    case for the form's default keyword);
  - counts add up over texts joined at a non-word character.

The model is pure, as the source function is: every operation is a function
and every property a lemma.

Modelling choices:

- Characters are treated as ASCII.
  - A word character is a letter, a digit or `_`.
  - Lower-casing maps only `A`–`Z`.
  - Whitespace is the set that Python's `str.isspace` accepts among ASCII
    characters.
  - A non-ASCII character is therefore not a word character, so it separates
    words.
- The `Counter` is a `multiset<string>`.
  - A missing entry reads as 0 there, which matches the source's `.get(key, 0)`.
  - The sum of its values is the multiset's cardinality.
- The density is an exact real number, `frequency / total * 100`, and 0 when
  there are no words.
- The readability score comes from an external library, so it is a parameter.
  It is returned unchanged and drives the second suggestion.
- The keyword suggestion quotes the keyword as typed, not lower-cased, as the
  source does.
- The code raises no error for an empty keyword; it simply matches no word
  (see `Analyzer.KeywordWithSeparatorNeverMatches`).

## Model

| member | source | states |
|---|---|---|
| CharClass.LowerChar | streamlit_app.py:16 | lower-cases one character: the result is never upper case, keeps whether it is a word character or whitespace, maps `A`–`Z` to the matching `a`–`z` and leaves every other character alone |
| CharClass.Lower | streamlit_app.py:16 | `content.lower()`: same length, lower-cased at each index, no upper-case letter left |
| CharClass.IsWordChar | streamlit_app.py:16 | no contract: the ASCII `\w` class (letter, digit, `_`); its use is pinned down by Tokenize.RunsShape and Analyzer.TokensAreWordRuns |
| CharClass.IsSpace | streamlit_app.py:19 | no contract: the ASCII characters for which `str.isspace` holds, the separators of `split()`; CharClass.LowerChar keeps it and Tokenize.SplitOfSubNonWord uses it |
| CharClass.SameCharIgnoringCaseIff | streamlit_app.py:16 | two characters are equal or the two cases of one letter (32 code points apart) exactly when they lower-case to the same character |
| CharClass.SameIgnoringCaseIff | streamlit_app.py:16 | two strings differ only in the case of letters, position by position, exactly when they lower-case to the same string |
| CharClass.LowerIdempotent | streamlit_app.py:22 | lower-casing an already lower-cased string changes nothing |
| CharClass.LowerAppend | streamlit_app.py:16 | lower-casing a concatenation is the concatenation of the lower-cased parts |
| Tokenize.SkipCount | streamlit_app.py:16 | the leading separators: every one counted is a separator, and the character after them is not one |
| Tokenize.RunLength | streamlit_app.py:19 | the longest separator-free prefix: none of its characters is a separator, and the character after it is one |
| Tokenize.Runs | streamlit_app.py:19 | no contract: the maximal runs of non-separator characters, left to right; its meaning is given by Tokenize.RunsOfSeparators, Tokenize.RunsOfRun, Tokenize.RunsAppend, Tokenize.RunsShape and Tokenize.RunsCount |
| Tokenize.Split | streamlit_app.py:19 | no contract: `split()` with no argument, the runs between whitespace; Tokenize.SplitOfSubNonWord states what it yields on the substituted text |
| Tokenize.WordRuns | streamlit_app.py:16-19 | no contract: the reference notion of a word, the maximal runs of word characters; Tokenize.SplitOfSubNonWord and Analyzer.TokensAreWordRuns tie the tokens to it |
| Tokenize.SubNonWord | streamlit_app.py:16 | `re.sub(r'\W+', ' ', s)`: empty exactly for empty input; a text that opens with a non-word character opens with a space |
| Tokenize.SubNonWordChars | streamlit_app.py:16 | every character of the substituted text is a space or a word character of the input |
| Tokenize.SplitOfSubNonWord | streamlit_app.py:16-19 | splitting the substituted text on whitespace gives exactly the maximal runs of word characters of the input, in order |
| Tokenize.RunsAppend | streamlit_app.py:19 | when two texts meet at a separator, the runs of their concatenation are the runs of the first followed by the runs of the second |
| Tokenize.RunsShape | streamlit_app.py:19 | every run is non-empty, holds no separator, and keeps any property that all characters of the input have |
| Tokenize.RunsCount | streamlit_app.py:19 | the number of runs equals the number of positions where a run starts, counted by an independent left-to-right scan |
| Tokenize.RunsOfSeparators | streamlit_app.py:19 | a text made only of separators has no runs |
| Tokenize.RunsOfRun | streamlit_app.py:19 | a non-empty text without separators is a single run |
| Analyzer.Tokens | streamlit_app.py:16-19 | no contract: lower-case, substitute, split; Analyzer.TokensAreWordRuns states that these are the word runs of the lower-cased text, each a lower-case word |
| Analyzer.WordCount | streamlit_app.py:19 | no contract: the `Counter` of the tokens as a multiset; Analyzer.WordsOfContent states it is the multiset of word runs |
| Analyzer.KeywordFrequency | streamlit_app.py:22 | no contract: the counter's entry for the lower-cased keyword, 0 when absent; Analyzer.WordsOfContent bounds it by the total and Analyzer.CountsAppend, Analyzer.OneWord and Analyzer.KeywordWithSeparatorNeverMatches describe it |
| Analyzer.TotalWords | streamlit_app.py:28 | no contract: the sum of the counter's values, the multiset's size; Analyzer.TotalWordsIsRunCount and Analyzer.WordsOfContent give its meaning |
| Analyzer.DensityMessage | streamlit_app.py:36 | no contract: the density suggestion, quoting the keyword as typed; Analyzer.MessagesDiffer and Analyzer.Suggestions use it |
| Analyzer.ReadabilityMessage | streamlit_app.py:38 | constant: the readability suggestion text; Analyzer.MessagesDiffer and Analyzer.Suggestions use it |
| Analyzer.KeywordDensity | streamlit_app.py:31 | 0 when there are no words; otherwise the density times the word count is 100 times the frequency; between 0 and 100 whenever the frequency is at most the word count |
| Analyzer.DensityOfZero | streamlit_app.py:31 | a keyword that never occurs has density 0 |
| Analyzer.DensityThresholdIff | streamlit_app.py:31-35 | the density is below 2 exactly when there are no words or fewer than one word in fifty is the keyword |
| Analyzer.Suggestions | streamlit_app.py:34-38 | one suggestion per failed threshold and nothing else; the keyword suggestion is present exactly when the density is below 2 and then comes first; the readability one is present exactly when the score is below 60 |
| Analyzer.MessagesDiffer | streamlit_app.py:36-38 | the two suggestion texts can never be equal, whatever the keyword |
| Analyzer.WordsOfContent | streamlit_app.py:16-28 | the counter holds the maximal word runs of the lower-cased text, the total is their number, and the frequency never exceeds it |
| Analyzer.AnalyzeContent | streamlit_app.py:14-40 | the frequency is the number of word runs of the lower-cased text equal to the lower-cased keyword, and at most the number of word runs; the density is derived from those two counts and lies between 0 and 100; the readability score is returned unchanged; the suggestions follow the two thresholds |
| Analyzer.MultiplicityAtMostLength | streamlit_app.py:22-28 | no word is counted more often than there are tokens |
| Analyzer.TokensAreWordRuns | streamlit_app.py:16-19 | the tokens are the maximal word runs of the lower-cased text; each is a non-empty run of lower-case word characters |
| Analyzer.RunStartsLower | streamlit_app.py:16 | lower-casing moves no word boundary |
| Analyzer.TotalWordsIsRunCount | streamlit_app.py:28 | the total is the number of word runs, and equals the number of positions of the original text where a word starts |
| Analyzer.KeywordWithSeparatorNeverMatches | streamlit_app.py:22 | a keyword that is empty or contains a non-word character (a space, punctuation) has frequency 0 and density 0 for every text, and the keyword suggestion is then the first suggestion |
| Analyzer.DefaultKeywordNeverMatches | streamlit_app.py:47 | the form's default keyword, "AI content optimization", is never counted in any text |
| Analyzer.KeywordAloneMatches | streamlit_app.py:22-31 | a keyword made of word characters, analysed in a text that is just that keyword, has frequency 1 and density 100 |
| Analyzer.OneWord | streamlit_app.py:19-22 | a single word is one word, and it counts once when it equals the keyword up to case |
| Analyzer.NoWord | streamlit_app.py:19-28 | a text without word characters holds no words and no keyword |
| Analyzer.KeywordCaseInsensitive | streamlit_app.py:22 | keywords that differ only in letter case give the same frequency, density and number of suggestions |
| Analyzer.ContentCaseInsensitive | streamlit_app.py:16 | texts that differ only in letter case give the same frequency and density, and, for the same readability score passed in, the same suggestions (the source computes that score from the raw text, so in the program it may differ) |
| Analyzer.UnderscoreExamplePieces | streamlit_app.py:16-22 | each piece of "Hi, hi_x!" on its own: "Hi" is one word and counts for keyword "HI", "hi_x" is one word and does not, ", " and "!" hold no word |
| Analyzer.UnderscoreExampleCounts | streamlit_app.py:19-28 | "Hi, hi_x!" has two words, one of them the keyword "HI" |
| Analyzer.UnderscoreExample | streamlit_app.py:14-40 | for "Hi, hi_x!" and keyword "HI": total 2, frequency 1, density 50 (the underscore keeps "hi_x" one word) |
| Analyzer.CountsAppend | streamlit_app.py:19-28 | for two texts joined at a non-word character, the word totals and the keyword frequencies add up |
| Analyzer.StandaloneKeywordCounted | streamlit_app.py:16-22 | a keyword standing alone between non-word characters counts once more than in the text around it, so at least once |
| Analyzer.DensityBelowThreshold | streamlit_app.py:31-36 | the keyword suggestion is due exactly when the text has no words or fewer than one word in fifty is the keyword |
| Analyzer.EmptyContent | streamlit_app.py:14-40 | empty text: frequency 0, density 0, the keyword suggestion first, and the readability suggestion as well exactly when the score is below 60 |

## Left out

- The readability score (streamlit_app.py:25) comes from an external library computing a Flesch-Kincaid measure. It is a parameter, and any error that library raises for short texts is outside the model. The model does not settle that a grade-level formula is compared with the reading-ease threshold 60; it keeps the threshold as written.
- The generative-AI configuration (streamlit_app.py:11), the API call that drafts an article (streamlit_app.py:54-57), and the whole web interface (streamlit_app.py:43-81) are outside the model: they are network calls and display code, not part of the analysis.
- The unused imports (stop-word lists, a second AI client) add no behaviour.
- Unicode: the model treats characters as ASCII. Python's `\w`, `str.lower()` and `str.isspace()` also accept non-ASCII letters, digits and spaces; in the model every non-ASCII character separates words and is never lower-cased.
- Analyzer.KeywordDensity: the density is an exact real, so the model does not capture floating-point rounding of the division and multiplication.
