/** The per-line parsing of `load_options` (streamlit_app.py, lines 12-18). */
module OptionLines {
  import opened Common

  /** One entry of an option list, `[name, usage]`. */
  datatype Choice = Choice(name: string, usage: string)

  /** The characters Python's `str.split()` (no separator) treats as whitespace. */
  predicate IsSpace(c: char)
  {
    c == ' ' || '\t' <= c <= '\r' || '\U{1C}' <= c <= '\U{1F}'
    || c == '\U{85}' || c == '\U{A0}' || c == '\U{1680}' || '\U{2000}' <= c <= '\U{200A}'
    || c == '\U{2028}' || c == '\U{2029}' || c == '\U{202F}' || c == '\U{205F}' || c == '\U{3000}'
  }

  /** A word: a non-empty run of non-whitespace characters. */
  predicate IsWord(w: string)
  {
    w != [] && forall i :: 0 <= i < |w| ==> !IsSpace(w[i])
  }

  /** Length of the longest whitespace-free prefix of `s`. */
  function WordLen(s: string): (n: nat)
    ensures n <= |s|
    ensures forall i :: 0 <= i < n ==> !IsSpace(s[i])
    ensures n < |s| ==> IsSpace(s[n])
  {
    if s == [] || IsSpace(s[0]) then 0 else 1 + WordLen(s[1..])
  }

  /** Only whitespace. */
  predicate AllSpace(s: string)
  {
    forall i :: 0 <= i < |s| ==> IsSpace(s[i])
  }

  /** Every element is a word. */
  predicate AllWords(ws: seq<string>)
  {
    ws == [] || (IsWord(ws[0]) && AllWords(ws[1..]))
  }

  /**
   * `s.split()`: the maximal whitespace-free runs of `s`, in order. They are words, and
   * together they hold every non-whitespace character of `s`, in order.
   */
  function Words(s: string): (r: seq<string>)
    ensures AllWords(r)
    ensures Flatten(r) == NonSpace(s)
    decreases |s|
  {
    if s == [] then []
    else if IsSpace(s[0]) then Words(s[1..])
    else
      var n := WordLen(s);
      var rest := Words(s[n..]);
      assert s == s[..n] + s[n..];
      NonSpaceAppend(s[..n], s[n..]);
      NonSpaceOfWord(s[..n]);
      assert ([s[..n]] + rest)[1..] == rest;
      [s[..n]] + rest
  }

  /** The non-whitespace characters of `s`, in order. */
  function NonSpace(s: string): string
  {
    if s == [] then [] else (if IsSpace(s[0]) then [] else [s[0]]) + NonSpace(s[1..])
  }

  lemma {:induction false} NonSpaceAppend(a: string, b: string)
    ensures NonSpace(a + b) == NonSpace(a) + NonSpace(b)
  {
    if a == [] {
      assert a + b == b;
    } else {
      assert (a + b)[1..] == a[1..] + b;
      NonSpaceAppend(a[1..], b);
    }
  }

  lemma {:induction false} NonSpaceOfWord(w: string)
    requires forall i :: 0 <= i < |w| ==> !IsSpace(w[i])
    ensures NonSpace(w) == w
  {
    if w != [] {
      NonSpaceOfWord(w[1..]);
      assert w == [w[0]] + w[1..];
    }
  }

  /**
   * The words `ws` with the whitespace runs `gaps` between them: `ws[0] + gaps[0] + ws[1] + ...`.
   */
  function Interspersed(ws: seq<string>, gaps: seq<string>): (r: string)
    requires |gaps| + 1 == |ws| || (ws == [] && gaps == [])
  {
    if ws == [] then ""
    else if |ws| == 1 then ws[0]
    else ws[0] + gaps[0] + Interspersed(ws[1..], gaps[1..])
  }

  /** Leading whitespace does not change the split. */
  lemma {:induction false} WordsSkipSpace(s: string, t: string)
    requires AllSpace(s)
    ensures Words(s + t) == Words(t)
    decreases |s|
  {
    if s == [] {
      assert s + t == t;
    } else {
      assert (s + t)[1..] == s[1..] + t;
      WordsSkipSpace(s[1..], t);
    }
  }

  /** A word followed by nothing or by whitespace is split off whole. */
  lemma WordsOfWord(w: string, t: string)
    requires IsWord(w)
    requires t == [] || IsSpace(t[0])
    ensures Words(w + t) == [w] + Words(t)
  {
    WordLenOfWord(w, t);
    assert (w + t)[..|w|] == w && (w + t)[|w|..] == t;
  }

  lemma {:induction false} WordLenOfWord(w: string, t: string)
    requires forall i :: 0 <= i < |w| ==> !IsSpace(w[i])
    requires t == [] || IsSpace(t[0])
    ensures WordLen(w + t) == |w|
    decreases |w|
  {
    if w != [] {
      assert (w + t)[1..] == w[1..] + t;
      WordLenOfWord(w[1..], t);
    }
  }

  /**
   * Splitting words separated by non-empty whitespace runs, with any whitespace before and
   * after, gives the words back.
   */
  lemma WordsInterspersed(pre: string, ws: seq<string>, gaps: seq<string>, post: string)
    requires AllSpace(pre) && AllSpace(post)
    requires forall k :: 0 <= k < |ws| ==> IsWord(ws[k])
    requires forall k :: 0 <= k < |gaps| ==> gaps[k] != [] && AllSpace(gaps[k])
    requires |gaps| + 1 == |ws| || (ws == [] && gaps == [])
    ensures Words(pre + Interspersed(ws, gaps) + post) == ws
  {
    var body := Interspersed(ws, gaps) + post;
    assert pre + Interspersed(ws, gaps) + post == pre + body;
    WordsSkipSpace(pre, body);
    WordsOfInterspersed(ws, gaps, post);
  }

  lemma {:induction false} WordsOfInterspersed(ws: seq<string>, gaps: seq<string>, post: string)
    requires AllSpace(post)
    requires forall k :: 0 <= k < |ws| ==> IsWord(ws[k])
    requires forall k :: 0 <= k < |gaps| ==> gaps[k] != [] && AllSpace(gaps[k])
    requires |gaps| + 1 == |ws| || (ws == [] && gaps == [])
    ensures Words(Interspersed(ws, gaps) + post) == ws
    decreases |ws|
  {
    if ws == [] {
      WordsOfSpace(post);
      assert Interspersed(ws, gaps) + post == post;
    } else if |ws| == 1 {
      WordsOfSpace(post);
      WordsOfWord(ws[0], post);
    } else {
      var w, gap, rest := ws[0], gaps[0], Interspersed(ws[1..], gaps[1..]) + post;
      WordsOfInterspersed(ws[1..], gaps[1..], post);
      WordThenGap(w, gap, rest);
      InterspersedCons(ws, gaps, post);
      assert ws == [w] + ws[1..];
    }
  }

  lemma WordsOfSpace(s: string)
    requires AllSpace(s)
    ensures Words(s) == []
  {
    WordsSkipSpace(s, "");
    assert s + "" == s;
  }

  lemma InterspersedCons(ws: seq<string>, gaps: seq<string>, post: string)
    requires |ws| > 1 && |gaps| + 1 == |ws|
    ensures Interspersed(ws, gaps) + post == ws[0] + gaps[0] + (Interspersed(ws[1..], gaps[1..]) + post)
  {
  }

  /** A word, a non-empty whitespace run and anything after: the word is split off. */
  lemma WordThenGap(w: string, gap: string, rest: string)
    requires IsWord(w) && gap != [] && AllSpace(gap)
    ensures Words(w + gap + rest) == [w] + Words(rest)
  {
    var t := gap + rest;
    WordsSkipSpace(gap, rest);
    assert t[0] == gap[0];
    WordsOfWord(w, t);
    AppendAssoc(w, gap, rest);
  }

  /** `name.replace('"', '')`. */
  function StripQuotes(s: string): (r: string)
    ensures '"' !in r
    ensures IsSubseq(r, s)
    ensures forall c :: c != '"' ==> multiset(r)[c] == multiset(s)[c]
  {
    if s == [] then []
    else
      assert s == [s[0]] + s[1..];
      if s[0] == '"' then StripQuotes(s[1..]) else [s[0]] + StripQuotes(s[1..])
  }

  /**
   * Lines 16-17: `name, usage = line.split()` succeeds only when the line holds exactly two
   * words (otherwise the unpacking raises `ValueError`, given here as `None`), and the entry is
   * the first word without its double quotes, then the second word.
   */
  function ParseLine(line: string): (r: Option<Choice>)
    ensures r.Some? <==> |Words(line)| == 2
    ensures r.Some? ==> '"' !in r.value.name && IsWord(r.value.usage)
  {
    var ws := Words(line);
    if |ws| == 2 then
      assert AllWords(ws[1..]) && ws[1..][0] == ws[1];
      Some(Choice(StripQuotes(ws[0]), ws[1]))
    else None
  }

  /**
   * A line holding a name and a usage word, separated by whitespace and with any whitespace
   * around them, parses back to the quote-free name and the usage.
   */
  lemma ParseLineRoundTrip(pre: string, name: string, sep: string, usage: string, post: string)
    requires AllSpace(pre) && AllSpace(post)
    requires sep != [] && AllSpace(sep)
    requires IsWord(name) && IsWord(usage)
    ensures ParseLine(pre + name + sep + usage + post) == Some(Choice(StripQuotes(name), usage))
  {
    var line := pre + name + sep + usage + post;
    var ws := [name, usage];
    assert Interspersed(ws, [sep]) == name + sep + usage by {
      assert ws[1..] == [usage];
    }
    assert line == pre + Interspersed(ws, [sep]) + post;
    WordsInterspersed(pre, ws, [sep], post);
    assert Words(line) == ws;
  }

  /**
   * Lines 13-18, given the lines of the file: each line is parsed and appended in turn; the
   * first line that does not split into two words aborts the whole load (`None`).
   */
  method LoadOptions(lines: seq<string>) returns (options: Option<seq<Choice>>)
    ensures options.Some? <==> forall i :: 0 <= i < |lines| ==> ParseLine(lines[i]).Some?
    ensures options.Some? ==> |options.value| == |lines|
    ensures options.Some? ==> forall i :: 0 <= i < |lines| ==> options.value[i] == ParseLine(lines[i]).value
  {
    var acc: seq<Choice> := [];
    for i := 0 to |lines|
      invariant |acc| == i
      invariant forall j :: 0 <= j < i ==> ParseLine(lines[j]).Some? && acc[j] == ParseLine(lines[j]).value
    {
      var parsed := ParseLine(lines[i]);
      if parsed.None? {
        return None;
      }
      acc := acc + [parsed.value];
    }
    options := Some(acc);
  }
}
