/** The whitespace tokenizer of the dataset reader: `line.split()` on every
    line of the file, in order (`word_reader`, facility-location/src/data.py). */
module Words {

  /** Python's `str.isspace` on one character: the characters `str.split()`
      with no argument separates words at. */
  predicate IsSpace(c: char)
  {
    || '\t' <= c <= '\r'
    || '\U{1c}' <= c <= '\U{1f}'
    || c == ' '
    || c == '\U{85}'
    || c == '\U{a0}'
    || c == '\U{1680}'
    || '\U{2000}' <= c <= '\U{200a}'
    || c == '\U{2028}'
    || c == '\U{2029}'
    || c == '\U{202f}'
    || c == '\U{205f}'
    || c == '\U{3000}'
  }

  /** A word `split` can hand out: not empty, no whitespace inside. */
  predicate IsWord(w: string)
  {
    |w| > 0 && forall k :: 0 <= k < |w| ==> !IsSpace(w[k])
  }

  predicate AllSpace(s: string)
  {
    forall k :: 0 <= k < |s| ==> IsSpace(s[k])
  }

  /** The word being built, if there is one. */
  function Flush(cur: string): seq<string>
  {
    if cur == [] then [] else [cur]
  }

  /** One left-to-right pass over `s`, `cur` holding the characters of the
      word under construction. */
  function Scan(s: string, cur: string): seq<string>
    decreases |s|
  {
    if |s| == 0 then Flush(cur)
    else if IsSpace(s[0]) then Flush(cur) + Scan(s[1..], [])
    else Scan(s[1..], cur + [s[0]])
  }

  /** `s.split()`. */
  function SplitWords(s: string): seq<string>
  {
    Scan(s, [])
  }

  /** The non-whitespace characters of `s`, in order. */
  function NonSpace(s: string): string
  {
    if |s| == 0 then []
    else if IsSpace(s[0]) then NonSpace(s[1..])
    else [s[0]] + NonSpace(s[1..])
  }

  function Concat(ws: seq<string>): string
  {
    if |ws| == 0 then [] else ws[0] + Concat(ws[1..])
  }

  /** Words `ws[k]` each followed by the whitespace run `gaps[k]`; every gap
      but the last is non-empty, so consecutive words stay apart. */
  function Spaced(ws: seq<string>, gaps: seq<string>): string
    requires |gaps| == |ws|
  {
    if |ws| == 0 then [] else ws[0] + gaps[0] + Spaced(ws[1..], gaps[1..])
  }

  /** The words `word_reader` yields for a file whose lines are `lines`. */
  function WordsOfLines(lines: seq<string>): seq<string>
  {
    if |lines| == 0 then []
    else WordsOfLines(lines[..|lines| - 1]) + SplitWords(lines[|lines| - 1])
  }

  /** The text of the file, line after line. */
  function Text(lines: seq<string>): string
  {
    if |lines| == 0 then [] else Text(lines[..|lines| - 1]) + lines[|lines| - 1]
  }

  // ---------------------------------------------------------------------
  // What `split` yields
  // ---------------------------------------------------------------------

  lemma {:induction false} ScanYieldsWords(s: string, cur: string)
    requires forall k :: 0 <= k < |cur| ==> !IsSpace(cur[k])
    ensures forall k :: 0 <= k < |Scan(s, cur)| ==> IsWord(Scan(s, cur)[k])
    decreases |s|
  {
    if |s| > 0 {
      if IsSpace(s[0]) {
        ScanYieldsWords(s[1..], []);
      } else {
        ScanYieldsWords(s[1..], cur + [s[0]]);
      }
    }
  }

  /** No word is empty or holds whitespace. */
  lemma SplitYieldsWords(s: string)
    ensures forall k :: 0 <= k < |SplitWords(s)| ==> IsWord(SplitWords(s)[k])
  {
    ScanYieldsWords(s, []);
  }

  lemma {:induction false} ConcatAppend(a: seq<string>, b: seq<string>)
    ensures Concat(a + b) == Concat(a) + Concat(b)
  {
    if |a| > 0 {
      assert (a + b)[1..] == a[1..] + b;
      ConcatAppend(a[1..], b);
    } else {
      assert a + b == b;
    }
  }

  lemma ConcatFlush(cur: string)
    ensures Concat(Flush(cur)) == cur
  {
    if cur != [] {
      assert Concat([cur]) == cur + Concat([]);
    }
  }

  lemma {:induction false} ScanKeepsCharacters(s: string, cur: string)
    ensures Concat(Scan(s, cur)) == cur + NonSpace(s)
    decreases |s|
  {
    ConcatFlush(cur);
    if |s| == 0 {
      assert Scan(s, cur) == Flush(cur);
      assert NonSpace(s) == [];
    } else if IsSpace(s[0]) {
      var rest := Scan(s[1..], []);
      assert Scan(s, cur) == Flush(cur) + rest;
      assert NonSpace(s) == NonSpace(s[1..]);
      ScanKeepsCharacters(s[1..], []);
      assert Concat(rest) == NonSpace(s[1..]);
      ConcatAppend(Flush(cur), rest);
    } else {
      assert Scan(s, cur) == Scan(s[1..], cur + [s[0]]);
      assert NonSpace(s) == [s[0]] + NonSpace(s[1..]);
      ScanKeepsCharacters(s[1..], cur + [s[0]]);
      assert cur + [s[0]] + NonSpace(s[1..]) == cur + ([s[0]] + NonSpace(s[1..]));
    }
  }

  /** Only whitespace is dropped: the words, laid end to end, are the
      non-whitespace characters of the line in order. */
  lemma SplitKeepsCharacters(s: string)
    ensures Concat(SplitWords(s)) == NonSpace(s)
  {
    ScanKeepsCharacters(s, []);
  }

  lemma {:induction false} ScanOverWord(w: string, rest: string, cur: string)
    requires forall k :: 0 <= k < |w| ==> !IsSpace(w[k])
    ensures Scan(w + rest, cur) == Scan(rest, cur + w)
    decreases |w|
  {
    if |w| > 0 {
      assert (w + rest)[1..] == w[1..] + rest;
      ScanOverWord(w[1..], rest, cur + [w[0]]);
      assert cur + [w[0]] + w[1..] == cur + w;
    } else {
      assert w + rest == rest && cur + w == cur;
    }
  }

  lemma {:induction false} ScanOverSpaces(g: string, rest: string, cur: string)
    requires |g| > 0 && AllSpace(g)
    ensures Scan(g + rest, cur) == Flush(cur) + Scan(rest, [])
    decreases |g|
  {
    assert (g + rest)[1..] == g[1..] + rest;
    if |g| > 1 {
      ScanOverSpaces(g[1..], rest, []);
    } else {
      assert g[1..] + rest == rest;
    }
  }

  /** Maximality: text made of words separated by whitespace splits back
      into exactly those words, whatever whitespace precedes them. */
  lemma {:induction false} SplitSpaced(lead: string, ws: seq<string>, gaps: seq<string>)
    requires AllSpace(lead)
    requires |gaps| == |ws|
    requires forall k :: 0 <= k < |ws| ==> IsWord(ws[k]) && AllSpace(gaps[k])
    requires forall k :: 0 <= k < |ws| - 1 ==> |gaps[k]| > 0
    ensures SplitWords(lead + Spaced(ws, gaps)) == ws
    decreases |ws|
  {
    var t := Spaced(ws, gaps);
    if |lead| > 0 {
      ScanOverSpaces(lead, t, []);
    } else {
      assert lead + t == t;
    }
    if |ws| > 0 {
      var rest := Spaced(ws[1..], gaps[1..]);
      assert t == ws[0] + (gaps[0] + rest);
      ScanOverWord(ws[0], gaps[0] + rest, []);
      assert [] + ws[0] == ws[0];
      if |gaps[0]| > 0 {
        ScanOverSpaces(gaps[0], rest, ws[0]);
        SplitSpaced([], ws[1..], gaps[1..]);
        assert [] + rest == rest;
      } else {
        assert |ws| == 1 && rest == [] && gaps[0] + rest == [];
      }
    }
  }

  // ---------------------------------------------------------------------
  // Line by line is the same as the whole text
  // ---------------------------------------------------------------------

  lemma {:induction false} ScanAppend(a: string, b: string, cur: string)
    requires |a| > 0 && IsSpace(a[|a| - 1])
    ensures Scan(a + b, cur) == Scan(a, cur) + Scan(b, [])
    decreases |a|
  {
    assert (a + b)[0] == a[0];
    assert (a + b)[1..] == a[1..] + b;
    if |a| == 1 {
      assert a[1..] + b == b;
    } else if IsSpace(a[0]) {
      ScanAppend(a[1..], b, []);
    } else {
      ScanAppend(a[1..], b, cur + [a[0]]);
    }
  }

  lemma {:induction false} TextEnd(lines: seq<string>)
    requires |lines| > 0
    requires |lines[|lines| - 1]| > 0
    ensures |Text(lines)| > 0
    ensures Text(lines)[|Text(lines)| - 1] == lines[|lines| - 1][|lines[|lines| - 1]| - 1]
  {
  }

  /** Reading the file line by line yields the words of its whole text,
      because every line but the last ends in its newline. */
  lemma {:induction false} WordsOfText(lines: seq<string>)
    requires forall k :: 0 <= k < |lines| - 1 ==> |lines[k]| > 0 && IsSpace(lines[k][|lines[k]| - 1])
    ensures WordsOfLines(lines) == SplitWords(Text(lines))
  {
    if |lines| > 0 {
      var init := lines[..|lines| - 1];
      var last := lines[|lines| - 1];
      assert forall k :: 0 <= k < |init| - 1 ==> init[k] == lines[k];
      WordsOfText(init);
      if |init| > 0 {
        assert init[|init| - 1] == lines[|lines| - 2];
        TextEnd(init);
        ScanAppend(Text(init), last, []);
      } else {
        assert Text(init) + last == last;
      }
    }
  }

  // ---------------------------------------------------------------------
  // The generator
  // ---------------------------------------------------------------------

  /** `word_reader`: for each line, for each word of `line.split()`, yield
      it. The yielded words are collected in order. */
  method WordReader(lines: seq<string>) returns (words: seq<string>)
    ensures words == WordsOfLines(lines)
    ensures forall k :: 0 <= k < |words| ==> IsWord(words[k])
  {
    words := [];
    for l := 0 to |lines|
      invariant words == WordsOfLines(lines[..l])
      invariant forall k :: 0 <= k < |words| ==> IsWord(words[k])
    {
      var line := lines[l];
      var split := SplitWords(line);
      SplitYieldsWords(line);
      ghost var before := words;
      for k := 0 to |split|
        invariant words == before + split[..k]
        invariant forall q :: 0 <= q < |words| ==> IsWord(words[q])
      {
        words := words + [split[k]];
      }
      assert split[..|split|] == split;
      assert lines[..l + 1][..l] == lines[..l];
    }
    assert lines[..|lines|] == lines;
  }
}
