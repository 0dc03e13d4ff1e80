/** `generate_titles(topic, keywords)` of app.py: five fixed title templates
    filled in with the article topic and its main keyword. */
module Titles {
  import opened PyStr

  /** `needle` occurs in `haystack` starting at index `k`. */
  predicate OccursAt(haystack: string, needle: string, k: int) {
    0 <= k <= |haystack| - |needle| && haystack[k..k + |needle|] == needle
  }

  /** `needle in haystack` for Python strings. */
  predicate Contains(haystack: string, needle: string) {
    exists k :: 0 <= k <= |haystack| - |needle| && OccursAt(haystack, needle, k)
  }

  /** A text between two others is a substring of the whole. */
  lemma ContainsInfix(before: string, needle: string, after: string)
    ensures Contains(before + needle + after, needle)
    ensures Contains(before + needle, needle)
  {
    var h := before + needle;
    assert h[|before|..|before| + |needle|] == needle;
    assert OccursAt(h, needle, |before|);
    assert (h + after)[|before|..|before| + |needle|] == needle;
    assert OccursAt(h + after, needle, |before|);
  }

  /** Text appended after keeps a substring a substring. */
  lemma ContainsAppend(h: string, after: string, needle: string)
    requires Contains(h, needle)
    ensures Contains(h + after, needle)
  {
    var k :| 0 <= k <= |h| - |needle| && OccursAt(h, needle, k);
    assert (h + after)[k..k + |needle|] == h[k..k + |needle|];
    assert OccursAt(h + after, needle, k);
  }

  lemma ContainsPrefix(needle: string, after: string)
    ensures Contains(needle + after, needle)
  {
    assert (needle + after)[0..|needle|] == needle;
    assert OccursAt(needle + after, needle, 0);
  }

  /** The five suggestions, in the order of the source's list. */
  function GenerateTitles(topic: string, keywords: string): (titles: seq<string>)
    ensures |titles| == 5
  {
    [
      "Comment " + topic + " peut transformer votre " + keywords,
      Title(keywords) + ": " + Capitalize(topic) + " en 5 étapes simples",
      "Les 7 secrets de " + topic + " que personne ne vous dit sur " + keywords,
      "Pourquoi " + topic + " est essentiel pour votre succès en " + keywords,
      "Guide complet: Maîtrisez " + topic + " pour dominer " + keywords + " en 2025"
    ]
  }

  /** Four of the titles quote the topic and the keyword verbatim. */
  lemma TitlesQuoteInputs(topic: string, keywords: string)
    ensures Contains(GenerateTitles(topic, keywords)[0], topic)
    ensures Contains(GenerateTitles(topic, keywords)[0], keywords)
    ensures Contains(GenerateTitles(topic, keywords)[2], topic)
    ensures Contains(GenerateTitles(topic, keywords)[2], keywords)
    ensures Contains(GenerateTitles(topic, keywords)[3], topic)
    ensures Contains(GenerateTitles(topic, keywords)[3], keywords)
    ensures Contains(GenerateTitles(topic, keywords)[4], topic)
    ensures Contains(GenerateTitles(topic, keywords)[4], keywords)
  {
    ContainsInfix("Comment ", topic, " peut transformer votre ");
    ContainsAppend("Comment " + topic + " peut transformer votre ", keywords, topic);
    ContainsInfix("Comment " + topic + " peut transformer votre ", keywords, []);
    ContainsInfix("Les 7 secrets de ", topic, " que personne ne vous dit sur ");
    ContainsAppend("Les 7 secrets de " + topic + " que personne ne vous dit sur ", keywords, topic);
    ContainsInfix("Les 7 secrets de " + topic + " que personne ne vous dit sur ", keywords, []);
    ContainsInfix("Pourquoi ", topic, " est essentiel pour votre succès en ");
    ContainsAppend("Pourquoi " + topic + " est essentiel pour votre succès en ", keywords, topic);
    ContainsInfix("Pourquoi " + topic + " est essentiel pour votre succès en ", keywords, []);
    var g := "Guide complet: Maîtrisez " + topic + " pour dominer ";
    ContainsInfix("Guide complet: Maîtrisez ", topic, " pour dominer ");
    ContainsAppend(g, keywords, topic);
    ContainsAppend(g + keywords, " en 2025", topic);
    ContainsInfix(g, keywords, " en 2025");
  }

  /** The second title quotes the keyword in title case and the topic
      capitalised; ignoring case, it too contains both inputs. */
  lemma SecondTitleChangesOnlyCase(topic: string, keywords: string)
    ensures Contains(GenerateTitles(topic, keywords)[1], Title(keywords))
    ensures Contains(GenerateTitles(topic, keywords)[1], Capitalize(topic))
    ensures Contains(Lower(GenerateTitles(topic, keywords)[1]), Lower(keywords))
    ensures Contains(Lower(GenerateTitles(topic, keywords)[1]), Lower(topic))
  {
    var rest := " en 5 étapes simples";
    var tk, ct := Title(keywords), Capitalize(topic);
    ContainsPrefix(tk, ": ");
    ContainsAppend(tk + ": ", ct, tk);
    ContainsAppend(tk + ": " + ct, rest, tk);
    ContainsInfix(tk + ": ", ct, rest);
    // Lower-casing distributes over the concatenation.
    TitleProperties(keywords);
    CapitalizeProperties(topic);
    LowerAppend(tk, ": ");
    LowerAppend(tk + ": ", ct);
    LowerAppend(tk + ": " + ct, rest);
    var lk, lt := Lower(keywords), Lower(topic);
    assert Lower(tk + ": " + ct + rest) == lk + Lower(": ") + lt + Lower(rest);
    ContainsPrefix(lk, Lower(": "));
    ContainsAppend(lk + Lower(": "), lt, lk);
    ContainsAppend(lk + Lower(": ") + lt, Lower(rest), lk);
    ContainsInfix(lk + Lower(": "), lt, Lower(rest));
  }
}
