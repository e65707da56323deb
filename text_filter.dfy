/**
 * `filter_str`: the text normaliser applied to story titles and bodies.
 * Three stages: substitute URLs with a placeholder, turn every ASCII punctuation
 * character into a space, then `" ".join(s.split())`.
 */
module TextFilter {

  /** Python's `string.punctuation`: the 32 ASCII punctuation characters. */
  const PUNCTUATION: string := "!\"#$%&'()*+,-./:;<=>?@[\\]^_`{|}~"

  /** The literal the URL substitution writes in place of a link. */
  const LINK_PLACEHOLDER: string := "<some_link>"

  /** Membership in `PUNCTUATION`, written as the four ASCII ranges it consists of. */
  predicate IsPunctuation(c: char)
  {
    '!' <= c <= '/' || ':' <= c <= '@' || '[' <= c <= '`' || '{' <= c <= '~'
  }

  /**
   * The ranges hold exactly the 32 characters of `PUNCTUATION`: the string lists 32
   * characters in increasing order, each inside the ranges, and the ranges span
   * 15 + 7 + 6 + 4 = 32 code points.
   */
  lemma PunctuationRanges()
    ensures |PUNCTUATION| == 32
    ensures forall i :: 0 <= i < |PUNCTUATION| ==> IsPunctuation(PUNCTUATION[i])
    ensures forall i, j :: 0 <= i && j == i + 1 < |PUNCTUATION| ==> PUNCTUATION[i] < PUNCTUATION[j]
    ensures ('/' as int - '!' as int + 1) + ('@' as int - ':' as int + 1)
          + ('`' as int - '[' as int + 1) + ('~' as int - '{' as int + 1) == 32
    ensures forall c :: IsPunctuation(c) <==> c in PUNCTUATION
  {
  }

  /** The characters Python's `str.split()` without arguments splits on (`str.isspace()`). */
  predicate IsSpace(c: char)
  {
    || c == ' '
    || '\t' <= c <= '\r'
    || '\U{1C}' <= c <= '\U{1F}'
    || c == '\U{85}' || c == '\U{A0}' || c == '\U{1680}'
    || '\U{2000}' <= c <= '\U{200A}'
    || c == '\U{2028}' || c == '\U{2029}' || c == '\U{202F}' || c == '\U{205F}' || c == '\U{3000}'
  }

  ghost predicate NoPunctuation(s: string)
  {
    forall i :: 0 <= i < |s| ==> !IsPunctuation(s[i])
  }

  /** A word of `str.split()`: non-empty and without whitespace. */
  ghost predicate IsWord(w: string)
  {
    w != [] && forall i :: 0 <= i < |w| ==> !IsSpace(w[i])
  }

  ghost predicate AllWords(ws: seq<string>)
  {
    forall i :: 0 <= i < |ws| ==> IsWord(ws[i])
  }

  /**
   * The whitespace shape `" ".join(...)` produces: no leading or trailing whitespace,
   * every whitespace character a plain space, never two whitespace characters in a row.
   */
  ghost predicate SingleSpaced(t: string)
  {
    && (|t| > 0 ==> !IsSpace(t[0]) && !IsSpace(t[|t| - 1]))
    && (forall i :: 0 <= i < |t| && IsSpace(t[i]) ==> t[i] == ' ')
    && (forall i, j :: 0 <= i && j == i + 1 < |t| ==> !IsSpace(t[i]) || !IsSpace(t[j]))
  }

  /**
   * What is known of the URL substitution without modelling the regular expression:
   * every match starts with `http://` or `https://`, so text without a colon is left as it is.
   */
  ghost predicate ChangesOnlyLinks(replaceLinks: string -> string)
  {
    forall s :: ':' !in s ==> replaceLinks(s) == s
  }

  /** `punctuation_regex.sub(' ', s)`. */
  function ReplacePunctuation(s: string): (r: string)
    ensures |r| == |s|
    ensures forall i :: 0 <= i < |s| && !IsPunctuation(s[i]) ==> r[i] == s[i]
    ensures forall i :: 0 <= i < |s| && IsPunctuation(s[i]) ==> r[i] == ' '
    ensures NoPunctuation(r)
  {
    seq(|s|, i requires 0 <= i < |s| => if IsPunctuation(s[i]) then ' ' else s[i])
  }

  /** Length of the run of non-whitespace characters that starts `s`. */
  function LeadingWordLength(s: string): (n: nat)
    ensures n <= |s|
    ensures forall i :: 0 <= i < n ==> !IsSpace(s[i])
    ensures n < |s| ==> IsSpace(s[n])
  {
    if s == [] || IsSpace(s[0]) then 0 else 1 + LeadingWordLength(s[1..])
  }

  /** `s.split()`: the maximal runs of non-whitespace characters, in order. */
  function Split(s: string): (words: seq<string>)
    ensures AllWords(words)
    decreases |s|
  {
    if s == [] then []
    else if IsSpace(s[0]) then Split(s[1..])
    else
      var n := LeadingWordLength(s);
      [s[..n]] + Split(s[n..])
  }

  /** `" ".join(words)`. */
  function Join(words: seq<string>): (r: string)
    ensures AllWords(words) ==> SingleSpaced(r) && (|r| == 0 <==> words == [])
    ensures (forall i :: 0 <= i < |words| ==> NoPunctuation(words[i])) ==> NoPunctuation(r)
  {
    if words == [] then ""
    else if |words| == 1 then words[0]
    else
      var rest := Join(words[1..]);
      var r := words[0] + " " + rest;
      assert forall i :: 0 <= i < |r| ==> r[i] == (if i < |words[0]| then words[0][i] else if i == |words[0]| then ' ' else rest[i - |words[0]| - 1]);
      r
  }


  lemma {:induction false} LeadingWordOfJoin(w: string, rest: string)
    requires IsWord(w)
    ensures LeadingWordLength(w + " " + rest) == |w|
    ensures LeadingWordLength(w) == |w|
  {
    var s := w + " " + rest;
    assert forall i :: 0 <= i < |w| ==> s[i] == w[i];
    assert s[|w|] == ' ';
  }

  lemma {:induction false} SplitAfterSpace(s: string)
    ensures Split(" " + s) == Split(s)
  {
    assert (" " + s)[1..] == s;
  }

  /** A word followed by a space splits off as the first word. */
  lemma SplitWordThenSpace(w: string, rest: string)
    requires IsWord(w)
    ensures Split(w + " " + rest) == [w] + Split(rest)
  {
    var s := w + " " + rest;
    LeadingWordOfJoin(w, rest);
    assert s[..|w|] == w;
    assert s[|w|..] == " " + rest;
    SplitAfterSpace(rest);
  }

  /** A single word splits into itself. */
  lemma SplitWord(w: string)
    requires IsWord(w)
    ensures Split(w) == [w]
  {
    LeadingWordOfJoin(w, "");
    assert w[|w|..] == [];
    assert w[..|w|] == w;
  }

  /** Splitting a joined sequence of words gives back the words. */
  lemma {:induction false} SplitJoin(words: seq<string>)
    requires AllWords(words)
    ensures Split(Join(words)) == words
    decreases |words|
  {
    if words == [] {
    } else if |words| == 1 {
      SplitWord(words[0]);
    } else {
      SplitWordThenSpace(words[0], Join(words[1..]));
      SplitJoin(words[1..]);
      assert words == [words[0]] + words[1..];
    }
  }

  /**
   * `filter_str`: URL substitution, punctuation to spaces, whitespace collapsed. The result
   * has the words of the punctuation-free text, in order, and nothing else.
   */
  function FilterStr(replaceLinks: string -> string, text: string): (r: string)
    ensures NoPunctuation(r)
    ensures SingleSpaced(r)
    ensures Split(r) == Split(ReplacePunctuation(replaceLinks(text)))
  {
    var words := Split(ReplacePunctuation(replaceLinks(text)));
    SplitJoin(words);
    SplitNoPunctuation(ReplacePunctuation(replaceLinks(text)));
    Join(words)
  }

  /** The words of a punctuation-free text are punctuation-free. */
  lemma {:induction false} SplitNoPunctuation(s: string)
    requires NoPunctuation(s)
    ensures forall i :: 0 <= i < |Split(s)| ==> NoPunctuation(Split(s)[i])
    decreases |s|
  {
    if s != [] {
      if IsSpace(s[0]) {
        SplitNoPunctuation(s[1..]);
      } else {
        var n := LeadingWordLength(s);
        SplitNoPunctuation(s[n..]);
        assert Split(s) == [s[..n]] + Split(s[n..]);
      }
    }
  }

  /** The characters of `s` that are not whitespace, in order. */
  function NonSpace(s: string): string
  {
    if s == [] then [] else (if IsSpace(s[0]) then [] else [s[0]]) + NonSpace(s[1..])
  }

  /** The words laid end to end, with nothing between them. */
  function Concat(words: seq<string>): string
  {
    if words == [] then [] else words[0] + Concat(words[1..])
  }

  lemma {:induction false} NonSpaceAppend(a: string, b: string)
    ensures NonSpace(a + b) == NonSpace(a) + NonSpace(b)
    decreases |a|
  {
    if a == [] {
      assert a + b == b;
    } else {
      assert (a + b)[1..] == a[1..] + b;
      NonSpaceAppend(a[1..], b);
    }
  }

  lemma {:induction false} NonSpaceOfWord(w: string)
    requires forall i :: 0 <= i < |w| ==> !IsSpace(w[i])
    ensures NonSpace(w) == w
    decreases |w|
  {
    if w != [] {
      NonSpaceOfWord(w[1..]);
    }
  }

  /** `split()` loses only whitespace: the words laid end to end are the non-whitespace characters. */
  lemma {:induction false} SplitKeepsContent(s: string)
    ensures Concat(Split(s)) == NonSpace(s)
    decreases |s|
  {
    if s == [] {
    } else if IsSpace(s[0]) {
      SplitKeepsContent(s[1..]);
    } else {
      var n := LeadingWordLength(s);
      var words := Split(s);
      assert words == [s[..n]] + Split(s[n..]);
      assert words[1..] == Split(s[n..]);
      SplitKeepsContent(s[n..]);
      NonSpaceOfWord(s[..n]);
      assert s == s[..n] + s[n..];
      NonSpaceAppend(s[..n], s[n..]);
    }
  }

  /** Whitespace only (possibly empty). */
  ghost predicate Blank(t: string)
  {
    forall i :: 0 <= i < |t| ==> IsSpace(t[i])
  }

  /** Words each followed by its gap of whitespace: `words[0] + gaps[0] + words[1] + gaps[1] + ...`. */
  function Layout(words: seq<string>, gaps: seq<string>): string
    requires |gaps| == |words|
  {
    if words == [] then [] else words[0] + (gaps[0] + Layout(words[1..], gaps[1..]))
  }

  lemma {:induction false} SplitAfterBlank(lead: string, rest: string)
    requires Blank(lead)
    ensures Split(lead + rest) == Split(rest)
    decreases |lead|
  {
    if lead == [] {
      assert lead + rest == rest;
    } else {
      assert (lead + rest)[1..] == lead[1..] + rest;
      SplitAfterBlank(lead[1..], rest);
    }
  }

  lemma SplitWordThenBlank(w: string, gap: string, rest: string)
    requires IsWord(w) && Blank(gap) && gap != []
    ensures Split(w + (gap + rest)) == [w] + Split(rest)
  {
    var tail := gap + rest;
    var s := w + tail;
    assert forall i :: 0 <= i < |w| ==> s[i] == w[i];
    assert s[|w|] == gap[0];
    assert LeadingWordLength(s) == |w| by {
      LeadingWordPrefix(s, |w|);
    }
    assert s[..|w|] == w && s[|w|..] == tail;
    SplitAfterBlank(gap, rest);
  }

  lemma {:induction false} LeadingWordPrefix(s: string, n: nat)
    requires n < |s| && IsSpace(s[n])
    requires forall i :: 0 <= i < n ==> !IsSpace(s[i])
    ensures LeadingWordLength(s) == n
    decreases n
  {
    if n > 0 {
      LeadingWordPrefix(s[1..], n - 1);
    }
  }

  /**
   * `split()` returns exactly the maximal non-whitespace runs: any text made of words with
   * whitespace before, between (at least one character) and after them splits into those words.
   */
  lemma {:induction false} SplitLayout(lead: string, words: seq<string>, gaps: seq<string>)
    requires Blank(lead) && AllWords(words) && |gaps| == |words|
    requires forall i :: 0 <= i < |gaps| ==> Blank(gaps[i])
    requires forall i :: 0 <= i < |gaps| - 1 ==> gaps[i] != []
    ensures Split(lead + Layout(words, gaps)) == words
    decreases |words|
  {
    SplitAfterBlank(lead, Layout(words, gaps));
    if words != [] {
      var rest := Layout(words[1..], gaps[1..]);
      if |words| == 1 {
        assert rest == [];
        SplitAfterBlank(gaps[0], []);
        assert gaps[0] + [] == gaps[0];
        if gaps[0] == [] {
          assert words[0] + (gaps[0] + rest) == words[0];
          SplitWord(words[0]);
        } else {
          SplitWordThenBlank(words[0], gaps[0], rest);
        }
      } else {
        SplitWordThenBlank(words[0], gaps[0], rest);
        SplitLayout([], words[1..], gaps[1..]);
        assert [] + rest == rest;
        assert words == [words[0]] + words[1..];
      }
    }
  }

  /** The empty string normalises to the empty string. */
  lemma FilterStrEmpty(replaceLinks: string -> string)
    requires ChangesOnlyLinks(replaceLinks)
    ensures FilterStr(replaceLinks, "") == ""
  {
    assert replaceLinks("") == "";
  }

  /** Normalising twice is normalising once. */
  lemma FilterStrIdempotent(replaceLinks: string -> string, text: string)
    requires ChangesOnlyLinks(replaceLinks)
    ensures FilterStr(replaceLinks, FilterStr(replaceLinks, text)) == FilterStr(replaceLinks, text)
  {
    var words := Split(ReplacePunctuation(replaceLinks(text)));
    var t := FilterStr(replaceLinks, text);
    assert t == Join(words);
    assert ':' !in t by {
      assert IsPunctuation(':');
    }
    assert replaceLinks(t) == t;
    assert ReplacePunctuation(t) == t;
    SplitJoin(words);
  }

  /** Two words between single spaces normalise to the two words joined by one space. */
  lemma {:induction false} TwoWordsBetweenSpaces(w1: string, w2: string)
    requires IsWord(w1) && IsWord(w2)
    ensures Join(Split(" " + (w1 + " " + (w2 + " " + "")))) == w1 + " " + w2
  {
    var last := w2 + " " + "";
    var tail := w1 + " " + last;
    SplitAfterSpace(tail);
    SplitWordThenSpace(w1, last);
    SplitWordThenSpace(w2, "");
    assert Split(last) == [w2];
    assert Split(tail) == [w1, w2];
    assert [w1, w2][1..] == [w2];
  }

  /** The link placeholder does not survive: its `<`, `_` and `>` become spaces, leaving two words. */
  lemma LinkPlaceholderBecomesWords(replaceLinks: string -> string, text: string)
    requires replaceLinks(text) == LINK_PLACEHOLDER
    ensures FilterStr(replaceLinks, text) == "some link"
  {
    PlaceholderPunctuation();
    assert IsWord("some") && IsWord("link");
    TwoWordsBetweenSpaces("some", "link");
  }

  lemma PlaceholderPunctuation()
    ensures ReplacePunctuation(LINK_PLACEHOLDER) == " " + ("some" + " " + ("link" + " " + ""))
    ensures "some" + " " + "link" == "some link"
  {
    var p := LINK_PLACEHOLDER;
    var r := ReplacePunctuation(p);
    var expected := " some link ";
    assert |r| == |expected| == |p| == 11;
    forall i | 0 <= i < 11
      ensures r[i] == expected[i]
    {
      if i == 0 || i == 5 || i == 10 {
        assert IsPunctuation(p[i]);
      } else {
        assert !IsPunctuation(p[i]) && p[i] == expected[i];
      }
    }
    assert r == " some link ";
    assert " " + ("some" + " " + ("link" + " " + "")) == " some link ";
  }
}
