# ContentOptimizer AI — text metrics, modelled in Dafny

ContentOptimizer AI is a Streamlit demo for optimising web content. Its only
computation is the `"seo"` analysis of `analyze_content` in `app.py`. That
analysis produces:

- a word count (`len(content.split())`);
- a keyword density, that is, the share of text tokens found among the
  whitespace-separated tokens of the keyword string, compared case-insensitively;
- a readability score clamped to [0, 100], derived from the average number of
  characters per sentence;
- an SEO score capped at 100.

The model also covers the statistics that the readability-checker page derives
from that result (character, word and sentence counts, reading time, the
"missing keywords" note) and the five title templates of `generate_titles`.
All of it is pure: the model is made of datatypes, functions and lemmas.

- `py_str.dfy`, module `PyStr`, models the Python string built-ins the code
  relies on:
  - `str.split()`, with the exact `str.isspace()` character set;
  - `str.lower()`, `str.title()` and `str.capitalize()`, over ASCII and Latin-1
    letters.
- `content_analysis.dfy`, module `ContentAnalysis`, models:
  - keyword matching;
  - `re.split(r'[.!?]', …)`;
  - the three scores, `analyze_content` and the detailed statistics.

  Module `ContentAnalysisExamples` works through the example inputs.
- `titles.dfy`, module `Titles`, models `generate_titles`.

Python floats are modelled by exact `real`s. The properties proved are bounds
and guards, and they hold exactly. Python's `round` is modelled exactly on
integers as round-half-even of `n / d`.

The readability page asks for comma-separated keywords, but the code splits the
keyword string on whitespace. A keyword entered as `"digital, seo"` therefore
yields the token `"digital,"`, which never matches the text token `"digital"`.
`ContentAnalysisExamples.DigitalSeoTokens` and `ContentAnalysisExamples.CommaStaysInKeywordToken` show this case.

## Model

| member | source | states |
|---|---|---|
| `PyStr.Split` | app.py:60 | every token of `content.split()` is non-empty and contains no whitespace character |
| `PyStr.WordCountIsRunStarts` | app.py:60 | the word count equals the number of maximal non-whitespace runs, an independently defined count of run starts |
| `PyStr.SplitEmptyIff` | app.py:60 | the word count is 0 exactly when the text is empty or only whitespace |
| `PyStr.SplitKeepsAllButSpaces` | app.py:60 | the tokens concatenated are the text with its whitespace removed; splitting loses nothing else |
| `PyStr.SplitJoinSpace` | app.py:60 | splitting `" ".join(ws)` gives back `ws` for any list of tokens |
| `PyStr.Lower` | app.py:63 | `lower()` keeps the length; each character of the result is not upper-case, is cased exactly when the input character is, equals it when uncased, and upper-cases to the same letter, so each cased character becomes the lower case of the same letter |
| `PyStr.LowerIdempotent` | app.py:63 | lower-casing twice gives the same as lower-casing once |
| `PyStr.SplitLower` | app.py:63 | the tokens of the lower-cased text are the lower-cased tokens of the text, so lower-casing keeps the word count |
| `PyStr.Title` | app.py:92 | `title()` keeps the length; each character is upper-cased where a run of cased letters begins and lower-cased everywhere else |
| `PyStr.TitleProperties` | app.py:92 | `title()` changes only case (its lower-cased form is the input's) and is idempotent |
| `PyStr.Capitalize` | app.py:92 | `capitalize()` keeps the length, leaves no lower-case first character and no upper-case letter after it, and changes each character only in case |
| `PyStr.CapitalizeProperties` | app.py:92 | `capitalize()` changes only case (its lower-cased form is the input's) and is idempotent |
| `ContentAnalysis.CountMembers` | app.py:63 | the generator `sum` never exceeds the number of tokens, and is 0 exactly when no token is among the keys |
| `ContentAnalysis.KeywordCount` | app.py:60-63 | the keyword count never exceeds the word count, and a text token is counted exactly when its lower-cased form equals a whitespace token of the lower-cased keyword string |
| `ContentAnalysis.KeywordCountIgnoresCase` | app.py:63 | lower-casing the text or the keywords beforehand does not change the keyword count |
| `ContentAnalysis.KeywordRatio` | app.py:61-64 | the density ratio lies in [0, 1]. The guard `if keywords:` is `HasKeywords`, false for `None` and `""`, and the ratio is then 0. It is also 0 when the text has no words (no division by zero) and when the keywords are whitespace only: such keywords pass the guard but split into no tokens. Otherwise the ratio is the number of case-insensitively matching tokens divided by the run count |
| `ContentAnalysis.SplitSentences` | app.py:67 | `re.split(r'[.!?]', s)` always yields at least one piece |
| `ContentAnalysis.SentencePiecesCount` | app.py:318 | the number of pieces minus one equals the number of `.`, `!` and `?` characters |
| `ContentAnalysis.SentencePiecesPartitionText` | app.py:67 | no piece holds a terminator, and the pieces concatenated are the text without its terminators |
| `ContentAnalysis.SentenceDivisor` | app.py:67 | the divisor `max(1, pieces - 1)` is at least 1, and equals the terminator count whenever there is one |
| `ContentAnalysis.AverageSentenceLength` | app.py:67 | the average is non-negative, and the average times the divisor gives the text length back |
| `ContentAnalysis.ReadabilityFromAverage` | app.py:68 | the score lies in [0, 100], equals `100 - (avg - 15) * 2` when that is in range, is 100 for `avg <= 15` and 0 for `avg >= 65` |
| `ContentAnalysis.ReadabilityNonIncreasing` | app.py:68 | a longer average sentence never gives a higher score |
| `ContentAnalysis.SeoScore` | app.py:80 | the score is at most 100, at least 55 for a non-negative ratio, equals the uncapped sum `55 + words/100 + 100 * ratio` when that is at most 100, and is exactly 100 when the sum is 100 or more |
| `ContentAnalysis.SeoScoreNonDecreasing` | app.py:80 | with the same ratio, more words never lower the SEO score |
| `ContentAnalysis.AnalyzeContent` | app.py:51-81 | a result exists exactly for `"seo"`; its word count is the run count, density and readability lie in [0, 100] and the SEO score in [55, 100]; density is 0 without keywords or words; density is 100 times the keyword ratio, readability is the score of the average sentence length, and the SEO score is that of the word count and the ratio |
| `ContentAnalysis.SeoScoreFromReportedDensity` | app.py:72-80 | the SEO score is `min(100, 55 + words/100 + reported density)` in terms of the result's own fields |
| `ContentAnalysis.RoundHalfEven` | app.py:319 | `round(n / d)` is within half a unit of `n / d`, and an exact tie goes to the even integer |
| `ContentAnalysis.ReadingMinutes` | app.py:319 | the reading time is at least one minute and exactly one below 300 words; above 100 words, `m * 200` is within 100 words of the word count, and at an exact tie `m` is even |
| `ContentAnalysis.Stats` | app.py:315-322 | characters are the text length, words the run count and sentences the terminator count; reading time is at least 1; the note says "Aucun" exactly when density exceeds 1 % |
| `ContentAnalysisExamples.EmptyText` | app.py:60-64 | empty text has word count 0 and density 0, even with a keyword |
| `ContentAnalysisExamples.ThreeWords` | app.py:60 | `"one two three"` has word count 3 |
| `ContentAnalysisExamples.AppleBananaTokens` | app.py:60-63 | `"apple banana apple"` splits into the tokens `apple`, `banana`, `apple`, before and after lower-casing |
| `ContentAnalysisExamples.LowerCaseWordTokens` | app.py:63 | a single token without upper-case letters, such as the keyword `"apple"`, lower-cases and splits to itself |
| `ContentAnalysisExamples.TwoOfThreeMatch` | app.py:63-72 | a text with the tokens of `"apple banana apple"` and keyword `"apple"` has density 200/3 % |
| `ContentAnalysisExamples.ApplePieTokens` | app.py:63 | `"Apple pie"` lower-cases and splits into the tokens `apple` and `pie` |
| `ContentAnalysisExamples.CaseFoldedButNotPunctuationStripped` | app.py:63 | with keyword `"apple"`, the tokens of `"Apple pie"` give one match, and the token `apple.` gives none |
| `ContentAnalysisExamples.DigitalSeoTokens` | app.py:63 | `"digital seo"` gives the tokens `digital` and `seo`; the keyword string `"digital, seo"` gives `digital,` and `seo` |
| `ContentAnalysisExamples.CommaStaysInKeywordToken` | app.py:63 | with those tokens, only `seo` matches, so the count is 1 |
| `ContentAnalysisExamples.NoTerminatorIsOneSentence` | app.py:67 | text without a terminator has sentence divisor 1 |
| `Titles.GenerateTitles` | app.py:84-97 | exactly five titles are produced |
| `Titles.TitlesQuoteInputs` | app.py:90-96 | titles 1, 3, 4 and 5 contain the topic and the keyword verbatim |
| `Titles.SecondTitleChangesOnlyCase` | app.py:92 | title 2 contains the title-cased keyword and the capitalised topic; ignoring case, it contains both inputs |

## Left out

- Streamlit rendering, layout, sidebar, subscription plans and usage counter (app.py:12-48, 99-314, 323-358) are user interface, not computation.
- The required-field checks before the analyses (`if not content`) belong to the form handling of that interface.
- `st.spinner` and `time.sleep` only pace the interface and have no effect on results.
- The four canned recommendation strings that `analyze_content` returns are fixed text, so the result record leaves them out.
- The fabricated keyword tables, trend numbers and generated article text are static content.
- `ContentAnalysis.Stats`: the constant field `"Niveau de lecture": "Intermédiaire"` (app.py:320) is fixed text and is not part of `DetailedStats`.
- The display formatting (`int(...)`, `:.1f`, the "minute(s)" string) is not modelled. `Stats` returns the reading time as a number.
- `datetime.now()` is a clock read and is not modelled. The unused `requests` and `json` imports are not modelled either.
- `PyStr.Lower`: the case mapping covers ASCII letters and the Latin-1 letters À–Þ and à–þ (except × and ÷), which differ by 32 code points. Other characters are treated as uncased and left unchanged. Python's full Unicode mappings are not modelled, including ß, ÿ, Œ, µ, non-Latin scripts and expansions such as `'ß'.capitalize() == 'Ss'`.
- `PyStr.Title`: the same restriction applies to `str.title()`. A character outside those letters counts as uncased, so it ends a run of cased letters.
- `ContentAnalysis.AnalyzeContent`: floats are modelled as exact reals, so rounding error is not captured.
- `ContentAnalysis.ReadingMinutes`: matches Python's float `round(word_count / 200)` only for word counts below 2^52.
