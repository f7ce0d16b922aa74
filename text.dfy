/** The string operations of Python's `str` that the resolver relies on:
    `isspace`, `strip`, `split()`, `lower` and the `in` test for substrings. */
module Text {

  /** `c.isspace()`: the characters CPython treats as whitespace, which are also
      the separators of `split()` and what `strip()` removes. */
  predicate IsSpace(c: char)
  {
    || ('\t' <= c <= '\r')
    || ('\U{1C}' <= c <= '\U{1F}')
    || c == ' '
    || c == '\U{85}'
    || c == '\U{A0}'
    || c == '\U{1680}'
    || ('\U{2000}' <= c <= '\U{200A}')
    || c == '\U{2028}'
    || c == '\U{2029}'
    || c == '\U{202F}'
    || c == '\U{205F}'
    || c == '\U{3000}'
  }

  predicate AllSpace(s: string)
  {
    forall i :: 0 <= i < |s| ==> IsSpace(s[i])
  }

  predicate NoSpace(s: string)
  {
    forall i :: 0 <= i < |s| ==> !IsSpace(s[i])
  }

  /** The number of whitespace characters `s` starts with. */
  function LeadingSpace(s: string): (i: nat)
    ensures i <= |s|
    ensures AllSpace(s[..i])
    ensures i < |s| ==> !IsSpace(s[i])
  {
    if s != [] && IsSpace(s[0]) then
      1 + LeadingSpace(s[1..])
    else
      0
  }

  /** The length of `s` without its trailing whitespace. */
  function ContentEnd(s: string): (j: nat)
    ensures j <= |s|
    ensures AllSpace(s[j..])
    ensures 0 < j ==> !IsSpace(s[j - 1])
  {
    if s != [] && IsSpace(s[|s| - 1]) then
      var k := ContentEnd(s[..|s| - 1]);
      assert forall m :: k <= m < |s| - 1 ==> s[m] == s[..|s| - 1][m];
      k
    else
      |s|
  }

  /** `s.lstrip()` */
  function LStrip(s: string): string
  {
    s[LeadingSpace(s)..]
  }

  /** `s.strip()` */
  function Strip(s: string): string
  {
    var t := LStrip(s);
    t[..ContentEnd(t)]
  }

  /** `s.strip()` is the part of `s` between its leading and its trailing
      whitespace: it is empty exactly when `s` is all whitespace, and otherwise
      starts and ends with a non-whitespace character. */
  lemma StripIsTrimmedInfix(s: string)
    ensures var i, r := LeadingSpace(s), Strip(s);
      && i + |r| <= |s|
      && s[i..i + |r|] == r
      && AllSpace(s[..i])
      && AllSpace(s[i + |r|..])
      && (r == [] <==> AllSpace(s))
      && (r != [] ==> !IsSpace(r[0]) && !IsSpace(r[|r| - 1]))
  {
    var i, t := LeadingSpace(s), LStrip(s);
    var j := ContentEnd(t);
    assert s[i + j..] == t[j..];
    if i < |s| {
      assert t[0] == s[i];
    } else {
      assert s[..i] == s;
    }
  }

  /** The longest prefix of `s` that holds no whitespace. */
  function TakeWord(s: string): (w: string)
    ensures w <= s && NoSpace(w)
    ensures |w| < |s| ==> IsSpace(s[|w|])
  {
    if s == [] || IsSpace(s[0]) then [] else [s[0]] + TakeWord(s[1..])
  }

  /** A word followed by whitespace, or by nothing, is the word taken. */
  lemma {:induction false} TakeWordStopsAtSpace(word: string, rest: string)
    requires NoSpace(word)
    requires rest == [] || IsSpace(rest[0])
    ensures TakeWord(word + rest) == word
  {
    if word != [] {
      assert (word + rest)[1..] == word[1..] + rest;
      TakeWordStopsAtSpace(word[1..], rest);
    }
  }

  /** `s.split()`: the maximal runs of non-whitespace characters, in order. */
  function Split(s: string): (words: seq<string>)
    ensures words == [] <==> AllSpace(s)
    ensures forall k :: 0 <= k < |words| ==> words[k] != [] && NoSpace(words[k])
    decreases |s|
  {
    var rest := LStrip(s);
    if rest == [] then
      []
    else
      var w := TakeWord(rest);
      [w] + Split(rest[|w|..])
  }

  /** A text that starts with a word ended by whitespace or by the end of the
      text splits into that word first. */
  lemma SplitStartsWithWord(word: string, rest: string)
    requires word != [] && NoSpace(word)
    requires rest == [] || IsSpace(rest[0])
    ensures Split(word + rest) != [] && Split(word + rest)[0] == word
  {
    var s := word + rest;
    assert s[0] == word[0];
    assert LStrip(s) == s;
    TakeWordStopsAtSpace(word, rest);
  }

  /** `s.split()[0]`, when there is a word, is the run of non-whitespace
      characters that begins at the first non-whitespace character of `s` and
      ends at the next whitespace character or at the end of `s`. */
  lemma {:induction false} FirstWordFollowsLeadingSpace(s: string)
    requires Split(s) != []
    ensures var i, w := LeadingSpace(s), Split(s)[0];
      && AllSpace(s[..i])
      && i + |w| <= |s|
      && s[i..i + |w|] == w
      && w != [] && NoSpace(w)
      && (i + |w| < |s| ==> IsSpace(s[i + |w|]))
  {
    var i, rest := LeadingSpace(s), LStrip(s);
    var w := TakeWord(rest);
    assert Split(s)[0] == w;
    assert rest[..|w|] == w;
  }

  /** Python's `lower()` restricted to ASCII letters. */
  function LowerChar(c: char): char
  {
    if 'A' <= c <= 'Z' then (c as int - 'A' as int + 'a' as int) as char else c
  }

  /** `s.lower()`, lowering the ASCII letters only. */
  function Lower(s: string): string
  {
    seq(|s|, i requires 0 <= i < |s| => LowerChar(s[i]))
  }

  /** `needle in hay` for two strings. */
  predicate Contains(hay: string, needle: string)
  {
    needle <= hay || (hay != [] && Contains(hay[1..], needle))
  }

  /** A needle holding a character the text lacks does not occur in the text. */
  lemma {:induction false} MissingLetterExcludes(hay: string, needle: string, c: char)
    requires c in needle && c !in hay
    ensures !Contains(hay, needle)
  {
    if hay != [] {
      MissingLetterExcludes(hay[1..], needle, c);
    }
  }

  predicate OccursAt(hay: string, needle: string, i: nat)
  {
    i + |needle| <= |hay| && hay[i..i + |needle|] == needle
  }

  predicate OccursIgnoringCaseAt(hay: string, needle: string, i: nat)
  {
    i + |needle| <= |hay| && forall k :: 0 <= k < |needle| ==> LowerChar(hay[i + k]) == LowerChar(needle[k])
  }

  /** The recursive substring test agrees with "occurs at some position". */
  lemma {:induction false} ContainsIffOccurs(hay: string, needle: string)
    ensures Contains(hay, needle) <==> exists i: nat :: i <= |hay| && OccursAt(hay, needle, i)
    decreases |hay|
  {
    if needle <= hay {
      assert OccursAt(hay, needle, 0);
    } else if hay == [] {
      forall i: nat | i <= |hay| ensures !OccursAt(hay, needle, i) {
        assert needle != [];
      }
    } else {
      ContainsIffOccurs(hay[1..], needle);
      if Contains(hay[1..], needle) {
        var i: nat :| i <= |hay[1..]| && OccursAt(hay[1..], needle, i);
        assert hay[1..][i..i + |needle|] == hay[i + 1..i + 1 + |needle|];
        assert OccursAt(hay, needle, i + 1);
      } else {
        forall i: nat | 0 < i <= |hay| && OccursAt(hay, needle, i) ensures OccursAt(hay[1..], needle, i - 1) {
          assert hay[1..][i - 1..i - 1 + |needle|] == hay[i..i + |needle|];
        }
      }
    }
  }

  /** At one position: the lowered text shows a lower-case needle exactly when
      the text shows it up to case. */
  lemma OccursInLowerAt(hay: string, needle: string, i: nat)
    requires Lower(needle) == needle
    ensures OccursAt(Lower(hay), needle, i) <==> OccursIgnoringCaseAt(hay, needle, i)
  {
  }

  /** For a lower-case needle, `needle in hay.lower()` holds exactly when the
      needle occurs in `hay` up to the case of ASCII letters. */
  lemma LowerContainsIffIgnoringCase(hay: string, needle: string)
    requires Lower(needle) == needle
    ensures Contains(Lower(hay), needle) <==> exists i: nat :: i <= |hay| && OccursIgnoringCaseAt(hay, needle, i)
  {
    ContainsIffOccurs(Lower(hay), needle);
    forall i: nat | i <= |hay|
      ensures OccursAt(Lower(hay), needle, i) <==> OccursIgnoringCaseAt(hay, needle, i)
    {
      OccursInLowerAt(hay, needle, i);
    }
  }
}
