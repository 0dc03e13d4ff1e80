/** Models of the Python `str` built-ins that the content analyser relies on:
    `str.split()` without arguments, `str.lower()`, `str.title()` and
    `str.capitalize()`. Strings are sequences of Unicode scalar values, as
    Python's `str` is. */
module PyStr {

  // ---------------------------------------------------------------------------
  // Whitespace and `str.split()`
  // ---------------------------------------------------------------------------

  /** The characters for which Python's `str.isspace()` holds. */
  predicate IsSpace(c: char) {
    c == ' ' || ('\t' <= c <= '\r') || ('\U{1C}' <= c <= '\U{1F}')
    || c == '\U{85}' || c == '\U{A0}' || c == '\U{1680}'
    || ('\U{2000}' <= c <= '\U{200A}') || c == '\U{2028}' || c == '\U{2029}'
    || c == '\U{202F}' || c == '\U{205F}' || c == '\U{3000}'
  }

  /** A token as `str.split()` produces it: non-empty, without whitespace. */
  predicate IsWord(w: string) {
    |w| > 0 && forall i :: 0 <= i < |w| ==> !IsSpace(w[i])
  }

  /** Length of the leading run of non-whitespace characters of `s`. */
  function RunLength(s: string): (n: nat)
    ensures n <= |s|
    ensures forall i :: 0 <= i < n ==> !IsSpace(s[i])
    ensures n < |s| ==> IsSpace(s[n])
  {
    if s == [] || IsSpace(s[0]) then 0 else 1 + RunLength(s[1..])
  }

  /** Python's `s.split()`: whitespace runs separate tokens, and empty
      tokens (leading or trailing whitespace) are dropped. */
  function Split(s: string): (words: seq<string>)
    ensures forall k :: 0 <= k < |words| ==> IsWord(words[k])
    decreases |s|
  {
    if s == [] then []
    else if IsSpace(s[0]) then Split(s[1..])
    else
      var n := RunLength(s);
      [s[..n]] + Split(s[n..])
  }

  /** Reference count of the maximal non-whitespace runs of `s`: the number of
      positions holding a non-whitespace character that follows whitespace or
      starts the text (`afterSpace` says whether the position before `s` is
      whitespace or the start). */
  function RunStartsFrom(s: string, afterSpace: bool): nat {
    if s == [] then 0
    else (if afterSpace && !IsSpace(s[0]) then 1 else 0) + RunStartsFrom(s[1..], IsSpace(s[0]))
  }

  function RunStarts(s: string): nat {
    RunStartsFrom(s, true)
  }

  /** The characters of `s` that are not whitespace, in order. */
  function RemoveSpaces(s: string): string {
    if s == [] then []
    else (if IsSpace(s[0]) then [] else [s[0]]) + RemoveSpaces(s[1..])
  }

  function Concat(ss: seq<string>): string {
    if ss == [] then [] else ss[0] + Concat(ss[1..])
  }

  /** `" ".join(ws)`. */
  function JoinSpace(ws: seq<string>): string {
    if ws == [] then [] else if |ws| == 1 then ws[0] else ws[0] + " " + JoinSpace(ws[1..])
  }

  /** Inside a run of non-whitespace, only the state after the run matters. */
  lemma {:induction false} RunStartsSkipRun(s: string, n: nat, afterSpace: bool)
    requires 0 < n <= |s|
    requires forall i :: 0 <= i < n ==> !IsSpace(s[i])
    ensures RunStartsFrom(s, afterSpace) == (if afterSpace then 1 else 0) + RunStartsFrom(s[n..], false)
  {
    if n > 1 {
      RunStartsSkipRun(s[1..], n - 1, false);
      assert s[1..][n - 1..] == s[n..];
    }
  }

  /** The word count `len(s.split())` is the number of maximal non-whitespace
      runs of `s`. */
  lemma {:induction false} WordCountIsRunStarts(s: string)
    ensures |Split(s)| == RunStarts(s)
    decreases |s|
  {
    if s == [] {
    } else if IsSpace(s[0]) {
      WordCountIsRunStarts(s[1..]);
    } else {
      var n := RunLength(s);
      RunStartsSkipRun(s, n, true);
      WordCountIsRunStarts(s[n..]);
      if n < |s| {
        assert s[n..][1..] == s[n + 1..];
      }
    }
  }

  /** Text with no non-whitespace character has no tokens, and only such text. */
  lemma {:induction false} SplitEmptyIff(s: string)
    ensures Split(s) == [] <==> forall i :: 0 <= i < |s| ==> IsSpace(s[i])
    decreases |s|
  {
    if s != [] {
      SplitEmptyIff(s[1..]);
      if IsSpace(s[0]) {
        assert forall i :: 1 <= i < |s| ==> s[i] == s[1..][i - 1];
      }
    }
  }

  lemma {:induction false} RemoveSpacesAppend(a: string, b: string)
    ensures RemoveSpaces(a + b) == RemoveSpaces(a) + RemoveSpaces(b)
    decreases |a|
  {
    if a == [] {
      assert a + b == b;
    } else {
      var c := a + b;
      assert c[0] == a[0] && c[1..] == a[1..] + b;
      RemoveSpacesAppend(a[1..], b);
    }
  }

  lemma {:induction false} RemoveSpacesOfWord(w: string)
    requires forall i :: 0 <= i < |w| ==> !IsSpace(w[i])
    ensures RemoveSpaces(w) == w
    decreases |w|
  {
    if w != [] {
      RemoveSpacesOfWord(w[1..]);
    }
  }

  /** The tokens, glued together, are exactly the non-whitespace characters of
      the text: `split()` loses whitespace and nothing else. */
  lemma {:induction false} SplitKeepsAllButSpaces(s: string)
    ensures Concat(Split(s)) == RemoveSpaces(s)
    decreases |s|
  {
    if s == [] {
    } else if IsSpace(s[0]) {
      SplitKeepsAllButSpaces(s[1..]);
    } else {
      var n := RunLength(s);
      SplitKeepsAllButSpaces(s[n..]);
      assert s == s[..n] + s[n..];
      RemoveSpacesAppend(s[..n], s[n..]);
      RemoveSpacesOfWord(s[..n]);
    }
  }

  lemma {:induction false} RunLengthOfWord(w: string, t: string)
    requires forall i :: 0 <= i < |w| ==> !IsSpace(w[i])
    requires t == [] || IsSpace(t[0])
    ensures RunLength(w + t) == |w|
    decreases |w|
  {
    if w != [] {
      RunLengthOfWord(w[1..], t);
      assert (w + t)[1..] == w[1..] + t;
    }
  }

  /** `" ".join(ws).split() == ws` for any list of tokens `ws`. */
  lemma {:induction false} SplitJoinSpace(ws: seq<string>)
    requires forall k :: 0 <= k < |ws| ==> IsWord(ws[k])
    ensures Split(JoinSpace(ws)) == ws
    decreases |ws|
  {
    if ws == [] {
    } else {
      var w := ws[0];
      var t: string := if |ws| == 1 then [] else " " + JoinSpace(ws[1..]);
      assert JoinSpace(ws) == w + t;
      RunLengthOfWord(w, t);
      assert (w + t)[..|w|] == w;
      assert (w + t)[|w|..] == t;
      if |ws| == 1 {
        assert ws == [w];
      } else {
        SplitJoinSpace(ws[1..]);
        assert t[1..] == JoinSpace(ws[1..]);
        assert ws == [w] + ws[1..];
      }
    }
  }

  // ---------------------------------------------------------------------------
  // Case mapping: `str.lower()`, `str.title()`, `str.capitalize()`
  // ---------------------------------------------------------------------------

  /** Upper-case letters of the model: ASCII and the Latin-1 letters whose
      lower-case form lies 32 code points above. */
  predicate IsUpper(c: char) {
    ('A' <= c <= 'Z') || ('\U{C0}' <= c <= '\U{DE}' && c != '\U{D7}')
  }

  predicate IsLower(c: char) {
    ('a' <= c <= 'z') || ('\U{E0}' <= c <= '\U{FE}' && c != '\U{F7}')
  }

  /** Python's notion of a cased character, restricted to the letters above. */
  predicate IsCased(c: char) {
    IsUpper(c) || IsLower(c)
  }

  function LowerChar(c: char): (d: char)
    ensures !IsUpper(d)
    ensures IsCased(d) == IsCased(c) && IsSpace(d) == IsSpace(c)
    ensures !IsCased(c) ==> d == c
  {
    if IsUpper(c) then (c as int + 32) as char else c
  }

  function UpperChar(c: char): (d: char)
    ensures !IsLower(d)
    ensures IsCased(d) == IsCased(c) && IsSpace(d) == IsSpace(c)
    ensures !IsCased(c) ==> d == c
  {
    if IsLower(c) then (c as int - 32) as char else c
  }

  /** Lower-casing forgets whatever case a letter had. */
  lemma CaseMappingsAgree(c: char)
    ensures LowerChar(UpperChar(c)) == LowerChar(c)
    ensures UpperChar(LowerChar(c)) == UpperChar(c)
    ensures LowerChar(LowerChar(c)) == LowerChar(c)
    ensures UpperChar(UpperChar(c)) == UpperChar(c)
  {
  }

  /** Python's `s.lower()`: no upper-case letter is left, and only cased
      characters change, each to the lower case of the same letter (the two
      agree once upper-cased). */
  function Lower(s: string): (r: string)
    ensures |r| == |s|
    ensures forall i :: 0 <= i < |s| ==>
              && !IsUpper(r[i])
              && IsCased(r[i]) == IsCased(s[i])
              && (IsCased(s[i]) || r[i] == s[i])
              && UpperChar(r[i]) == UpperChar(s[i])
  {
    seq(|s|, i requires 0 <= i < |s| => LowerChar(s[i]))
  }

  lemma LowerAppend(a: string, b: string)
    ensures Lower(a + b) == Lower(a) + Lower(b)
  {
    assert forall i :: 0 <= i < |a + b| ==> Lower(a + b)[i] == (Lower(a) + Lower(b))[i];
  }

  /** Applying `lower()` twice changes nothing more. */
  lemma LowerIdempotent(s: string)
    ensures Lower(Lower(s)) == Lower(s)
  {
    forall i | 0 <= i < |s| ensures Lower(Lower(s))[i] == Lower(s)[i] {
      CaseMappingsAgree(s[i]);
    }
  }

  /** Lower-casing commutes with taking a prefix or a suffix. */
  lemma LowerSlices(s: string, n: nat)
    requires n <= |s|
    ensures Lower(s)[..n] == Lower(s[..n])
    ensures Lower(s)[n..] == Lower(s[n..])
  {
    assert forall k :: 0 <= k < n ==> Lower(s)[..n][k] == Lower(s[..n])[k];
    assert forall k :: 0 <= k < |s| - n ==> Lower(s)[n..][k] == Lower(s[n..])[k];
  }

  /** Lower-casing keeps every character's whitespace status, so the tokens of
      the lower-cased text are the lower-cased tokens of the text. */
  lemma {:induction false} SplitLower(s: string)
    ensures |Split(Lower(s))| == |Split(s)|
    ensures forall k :: 0 <= k < |Split(s)| ==> Split(Lower(s))[k] == Lower(Split(s)[k])
    decreases |s|
  {
    var ls := Lower(s);
    if s == [] {
    } else if IsSpace(s[0]) {
      assert IsSpace(ls[0]);
      LowerSlices(s, 1);
      SplitLower(s[1..]);
      assert Split(ls) == Split(Lower(s[1..]));
    } else {
      var n := RunLength(s);
      RunLengthLower(s);
      LowerSlices(s, n);
      SplitLower(s[n..]);
      var rest, lrest := Split(s[n..]), Split(Lower(s[n..]));
      assert Split(ls) == [Lower(s[..n])] + lrest;
      assert Split(s) == [s[..n]] + rest;
      forall k | 0 < k < |Split(s)| ensures Split(ls)[k] == Lower(Split(s)[k]) {
        assert Split(ls)[k] == lrest[k - 1] && Split(s)[k] == rest[k - 1];
      }
    }
  }

  lemma {:induction false} RunLengthLower(s: string)
    ensures RunLength(Lower(s)) == RunLength(s)
    decreases |s|
  {
    if s != [] && !IsSpace(s[0]) {
      LowerSlices(s, 1);
      RunLengthLower(s[1..]);
    }
  }

  /** `str.title()` from a given state: `prevCased` says whether the character
      before `s` was cased. A cased character after an uncased one (or at the
      start) becomes upper case, every other character lower case. */
  function TitleFrom(s: string, prevCased: bool): (r: string)
    ensures |r| == |s|
  {
    if s == [] then []
    else [if prevCased then LowerChar(s[0]) else UpperChar(s[0])] + TitleFrom(s[1..], IsCased(s[0]))
  }

  /** Whether position `i` of `s` begins a run of cased letters. */
  predicate StartsCasedRun(s: string, i: nat)
    requires i < |s|
  {
    i == 0 || !IsCased(s[i - 1])
  }

  /** Python's `s.title()`: each character is upper-cased where a run of
      cased letters begins and lower-cased everywhere else. */
  function Title(s: string): (r: string)
    ensures |r| == |s|
    ensures forall i :: 0 <= i < |s| ==>
      r[i] == if StartsCasedRun(s, i) then UpperChar(s[i]) else LowerChar(s[i])
  {
    TitleFromPointwise(s);
    TitleFrom(s, false)
  }

  lemma {:induction false} TitleFromAt(s: string, prevCased: bool, i: nat)
    requires i < |s|
    ensures TitleFrom(s, prevCased)[i]
         == if (if i == 0 then prevCased else IsCased(s[i - 1])) then LowerChar(s[i]) else UpperChar(s[i])
    decreases i
  {
    if i > 0 {
      TitleFromAt(s[1..], IsCased(s[0]), i - 1);
      if i > 1 {
        assert s[1..][i - 2] == s[i - 1];
      }
    }
  }

  lemma TitleFromPointwise(s: string)
    ensures forall i :: 0 <= i < |s| ==>
      TitleFrom(s, false)[i] == if i == 0 || !IsCased(s[i - 1]) then UpperChar(s[i]) else LowerChar(s[i])
  {
    forall i | 0 <= i < |s| {
      TitleFromAt(s, false, i);
    }
  }

  /** `s.title()` only changes case, and is idempotent. */
  lemma TitleProperties(s: string)
    ensures Lower(Title(s)) == Lower(s)
    ensures Title(Title(s)) == Title(s)
  {
    forall i | 0 <= i < |s|
      ensures Lower(Title(s))[i] == Lower(s)[i]
      ensures Title(Title(s))[i] == Title(s)[i]
    {
      CaseMappingsAgree(s[i]);
      if i > 0 {
        assert IsCased(Title(s)[i - 1]) == IsCased(s[i - 1]);
      }
    }
  }

  /** Python's `s.capitalize()`: the first character in title case, the rest
      lower case. Each character keeps its letter and only its case changes. */
  function Capitalize(s: string): (r: string)
    ensures |r| == |s|
    ensures |s| > 0 ==> !IsLower(r[0])
    ensures forall i :: 1 <= i < |s| ==> !IsUpper(r[i])
    ensures forall i :: 0 <= i < |s| ==> LowerChar(r[i]) == LowerChar(s[i])
  {
    if s == [] then []
    else
      CaseMappingsAgree(s[0]);
      var r := [UpperChar(s[0])] + Lower(s[1..]);
      assert forall i :: 1 <= i < |s| ==> r[i] == LowerChar(s[i]);
      r
  }

  /** `s.capitalize()` only changes case and is idempotent. */
  lemma CapitalizeProperties(s: string)
    ensures Lower(Capitalize(s)) == Lower(s)
    ensures Capitalize(Capitalize(s)) == Capitalize(s)
  {
    if s != [] {
      var head, tail := [UpperChar(s[0])], Lower(s[1..]);
      assert Capitalize(s) == head + tail;
      CaseMappingsAgree(s[0]);
      LowerIdempotent(s[1..]);
      LowerAppend(head, tail);
      LowerAppend([s[0]], s[1..]);
      assert s == [s[0]] + s[1..];
      assert (head + tail)[1..] == tail;
    }
  }
}
