/** The `"seo"` analysis of `analyze_content` (app.py) and the detailed
    statistics that the readability checker page derives from it. Python's
    floating-point arithmetic is modelled with exact `real`s. */
module ContentAnalysis {
  import opened PyStr

  datatype Option<T> = None | Some(value: T)

  /** The metrics that `analyze_content` returns for the `"seo"` analysis. */
  datatype SeoAnalysis = SeoAnalysis(
    wordCount: nat,
    keywordDensity: real,    // percentage of tokens that are keywords
    readabilityScore: real,
    seoScore: real
  )

  /** What the readability checker page lists under its detailed statistics. */
  datatype DetailedStats = DetailedStats(
    characters: nat,
    words: nat,
    sentences: int,
    readingMinutes: int,
    missingKeywordsNote: string
  )

  function Min(a: real, b: real): real { if a <= b then a else b }
  function Max(a: real, b: real): real { if a >= b then a else b }

  // ---------------------------------------------------------------------------
  // Keyword matching
  // ---------------------------------------------------------------------------

  /** Python's `if keywords:`: both `None` and the empty string are false,
      every other string (even one of whitespace only) is true. */
  predicate HasKeywords(keywords: Option<string>) {
    keywords.Some? && keywords.value != ""
  }

  /** `sum(1 for word in tokens if word in keys)`. */
  function CountMembers(tokens: seq<string>, keys: seq<string>): (n: nat)
    ensures n <= |tokens|
    ensures n == 0 <==> forall k :: 0 <= k < |tokens| ==> tokens[k] !in keys
  {
    if tokens == [] then 0
    else (if tokens[0] in keys then 1 else 0) + CountMembers(tokens[1..], keys)
  }

  /** The keyword count of app.py: tokens of the lower-cased text that occur
      among the tokens of the lower-cased keyword string. It never exceeds the
      word count, and a token of the text counts exactly when its lower-cased
      form equals some whitespace-separated token of the lower-cased keyword
      string (punctuation is not stripped). */
  function KeywordCount(content: string, keywords: string): (n: nat)
    ensures n <= |Split(content)|
    ensures n == CaseInsensitiveMatches(Split(content), Split(Lower(keywords)))
  {
    SplitLower(content);
    CountMembersOfLowered(Split(content), Split(Lower(content)), Split(Lower(keywords)));
    CountMembers(Split(Lower(content)), Split(Lower(keywords)))
  }

  /** Reference count: the tokens `w` of the text whose lower-cased form is a
      token of the lower-cased keyword string. */
  function CaseInsensitiveMatches(words: seq<string>, keys: seq<string>): nat {
    if words == [] then 0
    else (if Lower(words[0]) in keys then 1 else 0) + CaseInsensitiveMatches(words[1..], keys)
  }

  lemma {:induction false} CountMembersOfLowered(words: seq<string>, lowered: seq<string>, keys: seq<string>)
    requires |lowered| == |words|
    requires forall k :: 0 <= k < |words| ==> lowered[k] == Lower(words[k])
    ensures CountMembers(lowered, keys) == CaseInsensitiveMatches(words, keys)
    decreases |words|
  {
    if words != [] {
      CountMembersOfLowered(words[1..], lowered[1..], keys);
    }
  }

  /** Changing the case of the text or of the keywords never changes the count. */
  lemma KeywordCountIgnoresCase(content: string, keywords: string)
    ensures KeywordCount(Lower(content), keywords) == KeywordCount(content, keywords)
    ensures KeywordCount(content, Lower(keywords)) == KeywordCount(content, keywords)
  {
    LowerIdempotent(content);
    LowerIdempotent(keywords);
  }

  // ---------------------------------------------------------------------------
  // Sentences: `re.split(r'[.!?]', s)`
  // ---------------------------------------------------------------------------

  predicate IsTerminal(c: char) {
    c == '.' || c == '!' || c == '?'
  }

  /** `re.split(r'[.!?]', s)`: the pieces between sentence terminators, with
      empty pieces kept (so there is always at least one piece). */
  function SplitSentences(s: string): (pieces: seq<string>)
    ensures |pieces| >= 1
  {
    if s == [] then [[]]
    else
      var rest := SplitSentences(s[1..]);
      if IsTerminal(s[0]) then [[]] + rest else [[s[0]] + rest[0]] + rest[1..]
  }

  /** The number of `.`, `!` and `?` characters of `s`. */
  function CountTerminals(s: string): nat {
    if s == [] then 0 else (if IsTerminal(s[0]) then 1 else 0) + CountTerminals(s[1..])
  }

  /** The characters of `s` other than `.`, `!` and `?`, in order. */
  function RemoveTerminals(s: string): string {
    if s == [] then [] else (if IsTerminal(s[0]) then [] else [s[0]]) + RemoveTerminals(s[1..])
  }

  /** `len(re.split(r'[.!?]', s)) - 1` counts the terminators. */
  lemma {:induction false} SentencePiecesCount(s: string)
    ensures |SplitSentences(s)| - 1 == CountTerminals(s)
    decreases |s|
  {
    if s != [] {
      SentencePiecesCount(s[1..]);
    }
  }

  /** No piece holds a terminator, and the pieces glued together are the text
      without its terminators. */
  lemma {:induction false} SentencePiecesPartitionText(s: string)
    ensures forall k, i :: 0 <= k < |SplitSentences(s)| && 0 <= i < |SplitSentences(s)[k]|
              ==> !IsTerminal(SplitSentences(s)[k][i])
    ensures Concat(SplitSentences(s)) == RemoveTerminals(s)
    decreases |s|
  {
    if s != [] {
      var rest := SplitSentences(s[1..]);
      SentencePiecesPartitionText(s[1..]);
      assert Concat(rest) == rest[0] + Concat(rest[1..]);
      if !IsTerminal(s[0]) {
        var pieces := SplitSentences(s);
        assert pieces[1..] == rest[1..];
        assert Concat(pieces) == ([s[0]] + rest[0]) + Concat(rest[1..]);
        forall k, i | 0 <= k < |pieces| && 0 <= i < |pieces[k]| ensures !IsTerminal(pieces[k][i]) {
          if k == 0 && i > 0 {
            assert pieces[0][i] == rest[0][i - 1];
          } else if k > 0 {
            assert pieces[k] == rest[k];
          }
        }
      }
    }
  }

  /** `max(1, len(re.split(r'[.!?]', s)) - 1)`: the number of sentences, or 1
      when there is no terminator. */
  function SentenceDivisor(s: string): (d: int)
    ensures d >= 1
    ensures d == if CountTerminals(s) == 0 then 1 else CountTerminals(s)
  {
    SentencePiecesCount(s);
    var n := |SplitSentences(s)| - 1;
    if n >= 1 then n else 1
  }

  // ---------------------------------------------------------------------------
  // Scores
  // ---------------------------------------------------------------------------

  lemma RatioInUnitInterval(part: nat, whole: nat)
    requires 0 < whole && part <= whole
    ensures 0.0 <= part as real / whole as real <= 1.0
    ensures (part as real / whole as real) * whole as real == part as real
  {
  }

  /** `keyword_count / word_count if word_count > 0 else 0` under
      `if keywords:`, before it is scaled to a percentage. */
  function KeywordRatio(content: string, keywords: Option<string>): (r: real)
    ensures 0.0 <= r <= 1.0
    ensures !HasKeywords(keywords) || RunStarts(content) == 0 ==> r == 0.0
    ensures keywords.Some? && RunStarts(keywords.value) == 0 ==> r == 0.0
    ensures HasKeywords(keywords) && RunStarts(content) > 0
            ==> r == CaseInsensitiveMatches(Split(content), Split(Lower(keywords.value))) as real
                     / RunStarts(content) as real
  {
    var wordCount := |Split(content)|;
    WordCountIsRunStarts(content);
    if HasKeywords(keywords) then
      var keywordCount := KeywordCount(content, keywords.value);
      WordCountIsRunStarts(keywords.value);
      SplitLower(keywords.value);
      if wordCount > 0 then
        RatioInUnitInterval(keywordCount, wordCount);
        keywordCount as real / wordCount as real
      else 0.0
    else 0.0
  }

  /** `len(content) / max(1, sentences)`. */
  function AverageSentenceLength(content: string): (avg: real)
    ensures avg >= 0.0
    ensures avg * SentenceDivisor(content) as real == |content| as real
  {
    |content| as real / SentenceDivisor(content) as real
  }

  /** `min(100, max(0, 100 - (avg - 15) * 2))`. */
  function ReadabilityFromAverage(avg: real): (score: real)
    ensures 0.0 <= score <= 100.0
    ensures 0.0 <= 100.0 - (avg - 15.0) * 2.0 <= 100.0 ==> score == 100.0 - (avg - 15.0) * 2.0
    ensures avg <= 15.0 ==> score == 100.0
    ensures avg >= 65.0 ==> score == 0.0
  {
    Min(100.0, Max(0.0, 100.0 - (avg - 15.0) * 2.0))
  }

  /** Longer sentences never read better. */
  lemma ReadabilityNonIncreasing(avg1: real, avg2: real)
    requires avg1 <= avg2
    ensures ReadabilityFromAverage(avg2) <= ReadabilityFromAverage(avg1)
  {
  }

  /** `min(100, 55 + word_count / 100 + density * 100)` with `density` the
      ratio of matching tokens. */
  function SeoScore(wordCount: nat, ratio: real): (score: real)
    ensures score <= 100.0
    ensures ratio >= 0.0 ==> score >= 55.0
    ensures 55.0 + wordCount as real / 100.0 + ratio * 100.0 <= 100.0
            ==> score == 55.0 + wordCount as real / 100.0 + ratio * 100.0
    ensures 55.0 + wordCount as real / 100.0 + ratio * 100.0 >= 100.0 ==> score == 100.0
  {
    Min(100.0, 55.0 + wordCount as real / 100.0 + ratio * 100.0)
  }

  /** With the same keyword ratio, a longer text never scores lower. */
  lemma SeoScoreNonDecreasing(wc1: nat, wc2: nat, ratio: real)
    requires wc1 <= wc2
    ensures SeoScore(wc1, ratio) <= SeoScore(wc2, ratio)
  {
  }

  // ---------------------------------------------------------------------------
  // analyze_content
  // ---------------------------------------------------------------------------

  /** `analyze_content(content, keywords, analysis_type)`: only the `"seo"`
      analysis produces a result; every other type yields `None`. */
  function AnalyzeContent(content: string, keywords: Option<string>, analysisType: string)
    : (r: Option<SeoAnalysis>)
    ensures r.Some? <==> analysisType == "seo"
    ensures r.Some? ==> r.value.wordCount == RunStarts(content)
    ensures r.Some? ==> 0.0 <= r.value.keywordDensity <= 100.0
    ensures r.Some? ==> 0.0 <= r.value.readabilityScore <= 100.0
    ensures r.Some? ==> 55.0 <= r.value.seoScore <= 100.0
    ensures r.Some? && (!HasKeywords(keywords) || r.value.wordCount == 0) ==> r.value.keywordDensity == 0.0
    ensures r.Some? ==> r.value.keywordDensity == 100.0 * KeywordRatio(content, keywords)
    ensures r.Some? ==> r.value.readabilityScore == ReadabilityFromAverage(AverageSentenceLength(content))
    ensures r.Some? ==> r.value.seoScore == SeoScore(r.value.wordCount, KeywordRatio(content, keywords))
  {
    if analysisType == "seo" then
      var wordCount := |Split(content)|;
      var ratio := KeywordRatio(content, keywords);
      var readability := ReadabilityFromAverage(AverageSentenceLength(content));
      WordCountIsRunStarts(content);
      Some(SeoAnalysis(wordCount, ratio * 100.0, readability, SeoScore(wordCount, ratio)))
    else None
  }

  /** The SEO score is the capped sum of the base 55, one point per hundred
      words and the reported keyword density. */
  lemma SeoScoreFromReportedDensity(content: string, keywords: Option<string>)
    ensures var a := AnalyzeContent(content, keywords, "seo").value;
      a.seoScore == Min(100.0, 55.0 + a.wordCount as real / 100.0 + a.keywordDensity)
  {
  }

  // ---------------------------------------------------------------------------
  // Detailed statistics of the readability checker page
  // ---------------------------------------------------------------------------

  lemma DivisionParts(n: nat, d: nat)
    requires d > 0
    ensures n == (n / d) * d + n % d && 0 <= n % d < d
    ensures (n / d + 1) * d == (n / d) * d + d
  {
  }

  /** Python's `round(n / d)`: the nearest integer, ties to the even one. */
  function RoundHalfEven(n: nat, d: nat): (r: int)
    requires d > 0
    ensures r >= 0
    ensures 2 * (r * d - n) <= d && 2 * (n - r * d) <= d
    ensures 2 * (r * d - n) == d || 2 * (n - r * d) == d ==> r % 2 == 0
  {
    var q, m := n / d, n % d;
    DivisionParts(n, d);
    if 2 * m < d then q
    else if 2 * m > d then q + 1
    else if q % 2 == 0 then q
    else q + 1
  }

  /** `max(1, round(word_count / 200))`: at least one minute, and one minute
      exactly for texts under 300 words. */
  function ReadingMinutes(wordCount: nat): (m: int)
    ensures m >= 1
    ensures m == 1 <==> wordCount < 300
    ensures wordCount > 100 ==> 2 * (m * 200 - wordCount) <= 200 && 2 * (wordCount - m * 200) <= 200
    ensures wordCount > 100 && (2 * (m * 200 - wordCount) == 200 || 2 * (wordCount - m * 200) == 200)
            ==> m % 2 == 0
  {
    var r := RoundHalfEven(wordCount, 200);
    if r >= 1 then r else 1
  }

  /** The detailed statistics of app.py for `content` and the keywords typed
      into the form field. */
  function Stats(content: string, keywordsToCheck: string): (d: DetailedStats)
    ensures d.characters == |content|
    ensures d.words == RunStarts(content)
    ensures d.sentences == CountTerminals(content)
    ensures d.readingMinutes >= 1
    ensures d.missingKeywordsNote == "Aucun" <==> 100.0 * KeywordRatio(content, Some(keywordsToCheck)) > 1.0
  {
    var analysis := AnalyzeContent(content, Some(keywordsToCheck), "seo").value;
    SentencePiecesCount(content);
    DetailedStats(
      |content|,
      analysis.wordCount,
      |SplitSentences(content)| - 1,
      ReadingMinutes(analysis.wordCount),
      if analysis.keywordDensity > 1.0 then "Aucun" else "Intégrez plus de mots-clés principaux")
  }
}

/** Worked examples of the analysis on small inputs. Each input is passed as a
    parameter fixed by its precondition, so that the verifier reasons about
    it through the general lemmas instead of unfolding every function on it. */
module ContentAnalysisExamples {
  import opened PyStr
  import opened ContentAnalysis

  lemma LowerOfUncapitalised(s: string)
    requires forall i :: 0 <= i < |s| ==> !IsUpper(s[i])
    ensures Lower(s) == s
  {
  }

  lemma {:induction false} NoTerminators(s: string)
    requires forall i :: 0 <= i < |s| ==> !IsTerminal(s[i])
    ensures CountTerminals(s) == 0
    decreases |s|
  {
    if s != [] {
      NoTerminators(s[1..]);
    }
  }

  lemma SplitOne(a: string)
    requires IsWord(a)
    ensures Split(a) == [a]
  {
    SplitJoinSpace([a]);
  }

  lemma SplitTwo(a: string, b: string)
    requires IsWord(a) && IsWord(b)
    ensures Split(a + " " + b) == [a, b]
  {
    assert JoinSpace([a, b]) == a + " " + b by {
      assert JoinSpace([a, b][1..]) == b;
    }
    SplitJoinSpace([a, b]);
  }

  lemma SplitThree(a: string, b: string, c: string)
    requires IsWord(a) && IsWord(b) && IsWord(c)
    ensures Split(a + " " + b + " " + c) == [a, b, c]
  {
    assert JoinSpace([a, b, c]) == a + " " + b + " " + c by {
      assert JoinSpace([a, b, c][2..]) == c;
      assert JoinSpace([a, b, c][1..]) == b + " " + c;
    }
    SplitJoinSpace([a, b, c]);
  }

  /** Empty text: no tokens, no keyword density, no division by zero. */
  lemma EmptyText(text: string)
    requires text == ""
    ensures AnalyzeContent(text, None, "seo").value.wordCount == 0
    ensures AnalyzeContent(text, Some("apple"), "seo").value.keywordDensity == 0.0
  {
  }

  lemma ThreeWords(text: string)
    requires text == "one two three"
    ensures AnalyzeContent(text, None, "seo").value.wordCount == 3
  {
    assert text == "one" + " " + "two" + " " + "three";
    SplitThree("one", "two", "three");
  }

  lemma AppleBananaSplit(text: string)
    requires text == "apple banana apple"
    ensures Split(text) == ["apple", "banana", "apple"]
  {
    assert text == "apple" + " " + "banana" + " " + "apple";
    SplitThree("apple", "banana", "apple");
  }

  lemma AppleBananaTokens(text: string)
    requires text == "apple banana apple"
    ensures Split(text) == ["apple", "banana", "apple"]
    ensures Split(Lower(text)) == ["apple", "banana", "apple"]
  {
    LowerOfUncapitalised(text);
    AppleBananaSplit(text);
  }

  /** A single token without upper-case letters splits to itself. */
  lemma LowerCaseWordTokens(w: string)
    requires IsWord(w) && forall i :: 0 <= i < |w| ==> !IsUpper(w[i])
    ensures Split(Lower(w)) == [w]
  {
    LowerOfUncapitalised(w);
    SplitOne(w);
  }

  /** The keyword ratio of a text, read off its lower-cased token lists. */
  lemma RatioOfTokens(content: string, keywords: string, words: seq<string>, keys: seq<string>)
    requires Split(Lower(content)) == words && Split(Lower(keywords)) == keys
    requires |words| > 0 && keywords != ""
    ensures KeywordRatio(content, Some(keywords)) == CountMembers(words, keys) as real / |words| as real
  {
    SplitLower(content);
    assert KeywordCount(content, keywords) == CountMembers(words, keys);
  }

  /** Two matches out of three tokens, as a percentage. */
  lemma TwoThirdsPercent(r: real, n: nat, w: nat)
    requires n == 2 && w == 3 && r == n as real / w as real
    ensures 100.0 * r == 200.0 / 3.0
  {
  }

  lemma CountMembersOfThree(a: string, b: string, c: string, keys: seq<string>)
    ensures CountMembers([a, b, c], keys)
            == (if a in keys then 1 else 0) + (if b in keys then 1 else 0) + (if c in keys then 1 else 0)
  {
    assert [a, b, c][1..] == [b, c] && [b, c][1..] == [c] && [c][1..] == [];
    assert CountMembers([c], keys) == (if c in keys then 1 else 0);
    assert CountMembers([b, c], keys) == (if b in keys then 1 else 0) + CountMembers([c], keys);
  }

  /** A text whose tokens are "apple banana apple" (see `AppleBananaTokens`),
      with keyword "apple": two of the three tokens match, so the density is
      200/3 percent. */
  lemma TwoOfThreeMatch(text: string, keywords: string, words: seq<string>)
    requires words == ["apple", "banana", "apple"]
    requires Split(Lower(text)) == words && Split(Lower(keywords)) == [words[0]] && keywords != ""
    ensures AnalyzeContent(text, Some(keywords), "seo").value.keywordDensity == 200.0 / 3.0
  {
    RatioOfTokens(text, keywords, words, [words[0]]);
    CountMembersOfThree(words[0], words[1], words[2], [words[0]]);
    assert words[1] != words[0];
    TwoThirdsPercent(KeywordRatio(text, Some(keywords)), CountMembers(words, [words[0]]), |words|);
  }

  lemma ApplePieLower(text: string)
    requires text == "Apple pie"
    ensures Lower(text) == "apple pie"
  {
    assert text == "A" + "pple pie";
    LowerAppend("A", "pple pie");
    LowerOfUncapitalised("pple pie");
    assert Lower("A") == "a";
  }

  /** Lower-casing turns "Apple pie" into the tokens "apple" and "pie". */
  lemma ApplePieTokens(text: string)
    requires text == "Apple pie"
    ensures Split(Lower(text)) == ["apple", "pie"]
  {
    ApplePieLower(text);
    assert Lower(text) == "apple" + " " + "pie";
    SplitTwo("apple", "pie");
  }

  /** A text whose lower-cased tokens are "apple" and "pie" (as for "Apple pie",
      see `ApplePieTokens`) has one match for keyword "apple"; a text whose
      only token is "apple." (see `LowerCaseWordTokens`) has none, because
      punctuation is not stripped. */
  lemma CaseFoldedButNotPunctuationStripped(text: string, other: string, keywords: string)
    requires Split(Lower(text)) == ["apple", "pie"]
    requires Split(Lower(other)) == ["apple."]
    requires Split(Lower(keywords)) == ["apple"]
    ensures KeywordCount(text, keywords) == 1
    ensures KeywordCount(other, keywords) == 0
  {
    assert "pie" != "apple" && "apple." != "apple";
    assert CountMembers(["pie"], ["apple"]) == 0;
  }

  /** The keyword field asks for commas, but the keyword string is split on
      whitespace: "digital, seo" gives the tokens "digital," and "seo". */
  lemma DigitalSeoTokens(text: string, keywords: string)
    requires text == "digital seo" && keywords == "digital, seo"
    ensures Split(Lower(text)) == ["digital", "seo"]
    ensures Split(Lower(keywords)) == ["digital,", "seo"]
  {
    LowerOfUncapitalised(text);
    LowerOfUncapitalised(keywords);
    assert text == "digital" + " " + "seo";
    assert keywords == "digital," + " " + "seo";
    SplitTwo("digital", "seo");
    SplitTwo("digital,", "seo");
  }

  /** With the tokens of `DigitalSeoTokens`, the token "digital," never
      matches "digital": only "seo" counts. */
  lemma CommaStaysInKeywordToken(text: string, keywords: string)
    requires Split(Lower(text)) == ["digital", "seo"]
    requires Split(Lower(keywords)) == ["digital,", "seo"]
    ensures KeywordCount(text, keywords) == 1
  {
    assert "digital" != "digital,";
    assert CountMembers(["seo"], ["digital,", "seo"]) == 1;
  }

  /** Text without `.`, `!` or `?` counts as one sentence. */
  lemma NoTerminatorIsOneSentence(text: string)
    requires text == "no terminator here"
    ensures SentenceDivisor(text) == 1
  {
    NoTerminators(text);
  }
}
