/** `split_with_delims`, the `strtok` loop of np_project1, np_project2 and np_project4. */
module Splitting {
  /** What is left of a string after its leading delimiters. */
  function SkipDelims(s: string, delims: string): (r: string)
    ensures |r| <= |s| && (r != "" ==> r[0] !in delims)
    ensures s == "" || s[0] !in delims ==> r == s
  {
    if s != "" && s[0] in delims then SkipDelims(s[1..], delims) else s
  }

  /** The length of the piece without delimiters that a string begins with. */
  function WordLength(s: string, delims: string): (n: nat)
    ensures n <= |s| && (forall k :: 0 <= k < n ==> s[k] !in delims) && (n < |s| ==> s[n] in delims)
    ensures s != "" && s[0] !in delims ==> n > 0
  {
    if s == "" || s[0] in delims then 0 else 1 + WordLength(s[1..], delims)
  }

  /** A word: not empty, and without delimiters. */
  predicate IsWord(w: string, delims: string) {
    w != "" && forall k :: 0 <= k < |w| ==> w[k] !in delims
  }

  predicate AreWords(ws: seq<string>, delims: string) {
    forall i :: 0 <= i < |ws| ==> IsWord(ws[i], delims)
  }

  /** The words of a string: its longest pieces without delimiters, from left to right. */
  function Tokens(s: string, delims: string): (r: seq<string>)
    ensures AreWords(r, delims)
    decreases |s|
  {
    var t := SkipDelims(s, delims);
    if t == "" then []
    else
      var n := WordLength(t, delims);
      [t[..n]] + Tokens(t[n..], delims)
  }

  /** `split_with_delims`: `strtok` until it finds no more word. */
  method SplitWithDelims(cmd: string, delims: string) returns (args: seq<string>)
    ensures args == Tokens(cmd, delims)
  {
    args := [];
    var rest := cmd;
    var word := SkipDelims(rest, delims);
    while word != ""
      invariant word == SkipDelims(rest, delims)
      invariant Tokens(cmd, delims) == args + Tokens(rest, delims)
      decreases |word|
    {
      var n := WordLength(word, delims);
      assert Tokens(rest, delims) == [word[..n]] + Tokens(word[n..], delims);
      args := args + [word[..n]];
      rest := word[n..];
      word := SkipDelims(rest, delims);
    }
  }

  predicate AllDelims(s: string, delims: string) {
    forall k :: 0 <= k < |s| ==> s[k] in delims
  }

  /** Leading delimiters do not matter. */
  lemma {:induction false} TokensSkip(gap: string, s: string, delims: string)
    requires AllDelims(gap, delims)
    ensures SkipDelims(gap + s, delims) == SkipDelims(s, delims)
    ensures Tokens(gap + s, delims) == Tokens(s, delims)
  {
    if gap == "" {
      assert gap + s == s;
    } else {
      assert (gap + s)[1..] == gap[1..] + s;
      TokensSkip(gap[1..], s, delims);
    }
  }

  lemma {:induction false} WordLengthIs(w: string, s: string, delims: string)
    requires forall k :: 0 <= k < |w| ==> w[k] !in delims
    requires s == "" || s[0] in delims
    ensures WordLength(w + s, delims) == |w|
  {
    if w == "" {
      assert w + s == s;
    } else {
      assert (w + s)[1..] == w[1..] + s;
      WordLengthIs(w[1..], s, delims);
    }
  }

  /** A word in front is the first word. */
  lemma TokensWord(w: string, s: string, delims: string)
    requires IsWord(w, delims) && (s == "" || s[0] in delims)
    ensures Tokens(w + s, delims) == [w] + Tokens(s, delims)
  {
    WordLengthIs(w, s, delims);
    assert (w + s)[..|w|] == w && (w + s)[|w|..] == s;
  }

  /** Words with a delimiter between any two. */
  function Join(ws: seq<string>, sep: char): string {
    if ws == [] then "" else if |ws| == 1 then ws[0] else ws[0] + [sep] + Join(ws[1..], sep)
  }

  /** Splitting undoes joining, also in front of delimiters and other words. */
  lemma {:induction false} TokensJoin(ws: seq<string>, sep: char, s: string, delims: string)
    requires AreWords(ws, delims) && sep in delims && (s == "" || s[0] in delims)
    ensures Tokens(Join(ws, sep) + s, delims) == ws + Tokens(s, delims)
  {
    hide Tokens;
    if ws == [] {
      assert Join(ws, sep) + s == s;
      assert ws + Tokens(s, delims) == Tokens(s, delims);
    } else if |ws| == 1 {
      TokensWord(ws[0], s, delims);
      assert ws == [ws[0]];
    } else {
      var rest := Join(ws[1..], sep) + s;
      JoinStep(ws, sep, s);
      TokensWord(ws[0], [sep] + rest, delims);
      TokensSkip([sep], rest, delims);
      TokensJoin(ws[1..], sep, s, delims);
      assert [ws[0]] + (ws[1..] + Tokens(s, delims)) == ws + Tokens(s, delims);
    }
  }

  lemma JoinStep(ws: seq<string>, sep: char, s: string)
    requires |ws| > 1
    ensures Join(ws, sep) + s == ws[0] + ([sep] + (Join(ws[1..], sep) + s))
  {
  }

  /** Joining brings in no character but the separator. */
  lemma {:induction false} JoinLacks(ws: seq<string>, sep: char, bad: string)
    requires sep !in bad && AllLack(ws, bad)
    ensures Lacks(Join(ws, sep), bad)
  {
    if |ws| > 1 {
      JoinLacks(ws[1..], sep, bad);
    }
  }

  predicate Lacks(s: string, bad: string) {
    forall k :: 0 <= k < |s| ==> s[k] !in bad
  }

  predicate AllLack(ws: seq<string>, bad: string) {
    forall i :: 0 <= i < |ws| ==> Lacks(ws[i], bad)
  }

  // ------------------------------------------------------------------ any blanks between words

  predicate AllBlank(gaps: seq<string>, delims: string) {
    forall i :: 0 <= i < |gaps| ==> AllDelims(gaps[i], delims)
  }

  /** Words with a gap before each and one behind the last. */
  function Spaced(ws: seq<string>, gaps: seq<string>): string
    requires |gaps| == |ws| + 1
  {
    if ws == [] then gaps[0] else gaps[0] + ws[0] + Spaced(ws[1..], gaps[1..])
  }

  /** Two words have something between them. */
  predicate Apart(gaps: seq<string>) {
    forall i :: 0 < i < |gaps| - 1 ==> gaps[i] != ""
  }

  /** Splitting gives back the words, whatever the blanks are. */
  lemma {:induction false} TokensSpaced(ws: seq<string>, gaps: seq<string>, delims: string)
    requires |gaps| == |ws| + 1 && AllBlank(gaps, delims) && AreWords(ws, delims) && Apart(gaps)
    ensures Tokens(Spaced(ws, gaps), delims) == ws
  {
    hide Tokens;
    if ws == [] {
      TokensSkip(gaps[0], "", delims);
      assert gaps[0] + "" == gaps[0];
      NoTokens(delims);
    } else {
      var rest := Spaced(ws[1..], gaps[1..]);
      assert Spaced(ws, gaps) == gaps[0] + (ws[0] + rest);
      TokensSkip(gaps[0], ws[0] + rest, delims);
      assert rest == "" || rest[0] in delims by { SpacedStarts(ws[1..], gaps[1..], delims); }
      TokensWord(ws[0], rest, delims);
      TokensSpaced(ws[1..], gaps[1..], delims);
      assert [ws[0]] + ws[1..] == ws;
    }
  }

  lemma NoTokens(delims: string)
    ensures Tokens("", delims) == []
  {
  }

  lemma SpacedStarts(ws: seq<string>, gaps: seq<string>, delims: string)
    requires |gaps| == |ws| + 1 && AllBlank(gaps, delims) && (ws != [] ==> gaps[0] != "")
    ensures Spaced(ws, gaps) == "" || Spaced(ws, gaps)[0] in delims
  {
    assert AllDelims(gaps[0], delims);
  }

  lemma {:induction false} SpacedLacks(ws: seq<string>, gaps: seq<string>, delims: string, bad: string)
    requires |gaps| == |ws| + 1 && AllBlank(gaps, delims) && AllLack(ws, bad)
    requires forall k :: 0 <= k < |delims| ==> delims[k] !in bad
    ensures Lacks(Spaced(ws, gaps), bad)
  {
    assert AllDelims(gaps[0], delims);
    if ws != [] {
      SpacedLacks(ws[1..], gaps[1..], delims, bad);
    }
  }

  /** A text can be cut at any of its words. */
  lemma {:induction false} SpacedAt(a: seq<string>, w: string, b: seq<string>, gaps: seq<string>)
    requires |gaps| == |a| + |b| + 2
    ensures Spaced(a + [w] + b, gaps) == Spaced(a, gaps[..|a| + 1]) + w + Spaced(b, gaps[|a| + 1..])
  {
    var ws := a + [w] + b;
    if a == [] {
      assert ws[0] == w && ws[1..] == b && gaps[..1][0] == gaps[0];
    } else {
      assert ws[0] == a[0] && ws[1..] == a[1..] + [w] + b;
      assert gaps[1..][..|a|] == gaps[..|a| + 1][1..] && gaps[1..][|a|..] == gaps[|a| + 1..];
      SpacedAt(a[1..], w, b, gaps[1..]);
    }
  }
}
