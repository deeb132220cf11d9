/**
 How both command-line parsers cut a line at `|` and `!` (np_project1/Parser.cpp, np_project2/Parser.cpp).
 */
module CommandLines {
  import opened Decimals
  import opened Splitting

  const DELIMS := "\t "

  predicate IsOperator(c: char) {
    c == '|' || c == '!'
  }

  predicate IsLineEnd(c: char) {
    c == '\n' || c == '\r' || c == '\0'
  }

  /** A line as `getline` gives it, without the characters the parsers would wait at forever. */
  predicate OneLine(line: string) {
    forall k :: 0 <= k < |line| ==> !IsLineEnd(line[k])
  }

  /**
   A piece of a line with the operator that ends it. `Lone` is a single character between the last
   operator and the end of the line, which both parsers treat apart.
   */
  datatype Segment =
    | Segment(text: string, pipe: bool, exclamation: bool, count: nat)
    | Lone(c: char)

  function DigitCount(s: string): (n: nat)
    ensures n <= |s| && AllDigits(s[..n]) && (n < |s| ==> !IsDigit(s[n]))
  {
    if s == "" || !IsDigit(s[0]) then 0
    else
      var n := DigitCount(s[1..]);
      assert s[..n + 1] == [s[0]] + s[1..][..n];
      n + 1
  }

  /** The segments of a line of which `text` is read already. The digits behind an operator are its number. */
  function Segments(line: string, text: string): seq<Segment>
    decreases |line|
  {
    if line == "" then [Segment(text, false, false, 0)]
    else if IsOperator(line[0]) then
      var n := DigitCount(line[1..]);
      [Segment(text, line[0] == '|', line[0] == '!', Value(line[1..][..n]))] + AfterOperator(line[1 + n..])
    else Segments(line[1..], text + [line[0]])
  }

  /** Behind an operator and its digits the first character is text, whatever it is. */
  function AfterOperator(rest: string): seq<Segment>
    decreases |rest|
  {
    if rest == "" then []
    else if |rest| == 1 then [Lone(rest[0])]
    else Segments(rest[1..], [rest[0]])
  }

  /** The digit loop of both parsers. */
  method ReadNumber(line: string, start: nat) returns (num: nat, i: nat)
    requires start <= |line|
    ensures i == start + DigitCount(line[start..]) <= |line|
    ensures num == Value(line[start..][..i - start])
  {
    hide Value, DigitCount;
    i, num := start, 0;
    NoNumber(line, start);
    while i < |line| && IsDigit(line[i])
      invariant start <= i <= |line|
      invariant DigitCount(line[start..]) == i - start + DigitCount(line[i..])
      invariant AllDigits(line[start..i]) && num == Value(line[start..i])
    {
      NumberStep(line, start, i);
      num := num * 10 + (line[i] as int - '0' as int);
      i := i + 1;
    }
    NumberEnd(line, start, i);
  }

  lemma NoNumber(line: string, start: nat)
    requires start <= |line|
    ensures AllDigits(line[start..start]) && Value(line[start..start]) == 0
  {
  }

  lemma NumberEnd(line: string, start: nat, i: nat)
    requires start <= i <= |line| && (i < |line| ==> !IsDigit(line[i]))
    ensures DigitCount(line[i..]) == 0 && line[start..][..i - start] == line[start..i]
  {
  }

  lemma NumberStep(line: string, start: nat, i: nat)
    requires start <= i < |line| && IsDigit(line[i]) && AllDigits(line[start..i])
    ensures AllDigits(line[start..i + 1])
    ensures Value(line[start..i + 1]) == Value(line[start..i]) * 10 + (line[i] as int - '0' as int)
    ensures DigitCount(line[i..]) == 1 + DigitCount(line[i + 1..])
  {
    ValueStep(line[start..i], line[i]);
    assert line[start..i + 1] == line[start..i] + [line[i]];
    assert line[i..][1..] == line[i + 1..];
  }

  /** The segments of which nothing is inserted yet. */
  ghost function Remaining(line: string, i: nat, temp: string): seq<Segment>
    requires i <= |line|
  {
    if i < |line| then Segments(line[i..], temp) else []
  }

  lemma TextRemaining(line: string, i: nat, temp: string)
    requires i < |line| && !IsOperator(line[i])
    ensures Remaining(line, i, temp) ==
            if i + 1 == |line| then [Segment(temp + [line[i]], false, false, 0)] + []
            else Remaining(line, i + 1, temp + [line[i]])
  {
    var more := temp + [line[i]];
    assert line[i..][1..] == line[i + 1..];
    if i + 1 == |line| {
      assert Segments(line[i..], temp) == [Segment(more, false, false, 0)];
    }
  }

  /** An operator ends a segment; the character behind it and its digits is read as well. */
  lemma OperatorRemaining(line: string, i: nat, temp: string, j: nat)
    requires i < |line| && IsOperator(line[i]) && j == i + 1 + DigitCount(line[i + 1..])
    ensures Remaining(line, i, temp) ==
            [Segment(temp, line[i] == '|', line[i] == '!', Value(line[i + 1..][..j - i - 1]))]
            + AfterOperator(line[j..])
    ensures j == |line| ==> AfterOperator(line[j..]) == []
    ensures j + 1 == |line| ==> AfterOperator(line[j..]) == [Lone(line[j])] + []
    ensures j + 1 < |line| ==> AfterOperator(line[j..]) == Remaining(line, j + 1, [line[j]])
  {
    assert line[i..][1..] == line[i + 1..] && line[i..][j - i..] == line[j..];
    if j + 1 < |line| {
      assert line[j..][1..] == line[j + 1..];
    }
  }

  /** Nothing follows an operator and its digits exactly if they end the line. */
  lemma NothingFollows(line: string, j: nat)
    requires j <= |line|
    ensures AfterOperator(line[j..]) == [] <==> j == |line|
  {
    if j + 1 < |line| {
      SomeSegment(line[j..][1..], [line[j]]);
    }
  }

  lemma {:induction false} SomeSegment(line: string, text: string)
    ensures Segments(line, text) != []
    decreases |line|
  {
    if line != "" && !IsOperator(line[0]) {
      SomeSegment(line[1..], text + [line[0]]);
    }
  }

  // ------------------------------------------------------------------ reading text and blanks

  predicate NoOperator(t: string) {
    forall k :: 0 <= k < |t| ==> !IsOperator(t[k])
  }

  lemma {:induction false} ReadText(t: string, line: string, text: string)
    requires NoOperator(t)
    ensures Segments(t + line, text) == Segments(line, text + t)
  {
    if t == "" {
      assert t + line == line && text + t == text;
    } else {
      assert (t + line)[1..] == t[1..] + line && (text + [t[0]]) + t[1..] == text + t;
      ReadText(t[1..], line, text + [t[0]]);
    }
  }

  /** Reading ahead only changes the text of the first segment. */
  lemma {:induction false} TextAhead(ahead: string, line: string, text: string)
    ensures var s, r := Segments(line, text), Segments(line, ahead + text);
      && |s| == |r| > 0 && s[0].Segment? && r[0] == s[0].(text := ahead + s[0].text)
      && r[1..] == s[1..]
    decreases |line|
  {
    if line != "" && !IsOperator(line[0]) {
      assert ahead + (text + [line[0]]) == ahead + text + [line[0]];
      TextAhead(ahead, line[1..], text + [line[0]]);
    }
  }

  /** Unless the line ends with it, the character behind an operator is read like any other. */
  lemma BehindOperator(rest: string)
    requires |rest| != 1 && rest != "" && !IsOperator(rest[0])
    ensures AfterOperator(rest) == Segments(rest, "")
  {
    assert "" + [rest[0]] == [rest[0]];
  }

  lemma OneCharacterLeft(rest: string)
    requires |rest| == 1 && !IsOperator(rest[0])
    ensures Segments(rest, " ") == [Segment(" " + rest, false, false, 0)]
    ensures AfterOperator(rest) == [Lone(rest[0])]
  {
    assert rest[1..] == "" && " " + [rest[0]] == " " + rest;
  }

  /**
   Every operator in `before` is followed by its digits and by one more character, so that an operator
   behind `before` is read as one.
   */
  predicate Complete(before: string)
    decreases |before|
  {
    if before == "" then true
    else if IsOperator(before[0]) then
      var n := DigitCount(before[1..]);
      1 + n < |before| && Complete(before[2 + n..])
    else Complete(before[1..])
  }

  lemma {:induction false} DigitsThen(s: string, t: string)
    requires t == "" || !IsDigit(t[0]) || DigitCount(s) < |s|
    ensures DigitCount(s + t) == DigitCount(s)
  {
    if s == "" {
      assert s + t == t;
    } else if IsDigit(s[0]) {
      assert (s + t)[1..] == s[1..] + t;
      DigitsThen(s[1..], t);
    }
  }

  lemma {:induction false} DigitsOnly(s: string)
    requires AllDigits(s)
    ensures DigitCount(s) == |s|
  {
    if s != "" {
      DigitsOnly(s[1..]);
    }
  }

  /** The first segment is what stands before the first operator, and what follows does not depend on it. */
  lemma OperatorStep(c: char, digits: string, rest: string, text: string)
    requires IsOperator(c) && AllDigits(digits) && (rest == "" || !IsDigit(rest[0]))
    ensures Segments([c] + digits + rest, text) ==
            [Segment(text, c == '|', c == '!', Value(digits))] + AfterOperator(rest)
  {
    var line := [c] + digits + rest;
    assert line[1..] == digits + rest;
    DigitsOnly(digits);
    DigitsThen(digits, rest);
    assert line[1..][..|digits|] == digits && line[1 + |digits|..] == rest;
  }

  /** An operator that does not end the line, with its number and the character behind it. */
  lemma ReadOperator(before: string, tail: string, text: string)
    requires before != "" && IsOperator(before[0]) && tail != ""
    requires 1 + DigitCount(before[1..]) < |before|
    ensures var n := DigitCount(before[1..]);
      Segments(before + tail, text) ==
      [Segment(text, before[0] == '|', before[0] == '!', Value(before[1..][..n]))]
      + Segments(before[2 + n..] + tail, [before[1 + n]])
  {
    hide Segments, DigitCount, Value;
    var n := DigitCount(before[1..]);
    var digits, rest := before[1..][..n], before[1 + n..] + tail;
    assert before[1..][n] == before[1 + n];
    OperatorStep(before[0], digits, rest, text);
    assert before + tail == [before[0]] + digits + rest;
    assert rest[1..] == before[2 + n..] + tail && [rest[0]] == [before[1 + n]];
    assert AfterOperator(rest) == Segments(rest[1..], [rest[0]]);
  }

  /** What stands before an operator is cut independently of what follows it. */
  lemma {:induction false} CutAtOperator(before: string, op: char, digits: string, rest: string, text: string)
    requires Complete(before) && IsOperator(op) && AllDigits(digits) && (rest == "" || !IsDigit(rest[0]))
    ensures Segments(before + ([op] + digits + rest), text) ==
            Segments(before + ([op] + digits), text) + AfterOperator(rest)
    decreases |before|
  {
    hide Segments, AfterOperator, DigitCount, Value;
    var long, short := [op] + digits + rest, [op] + digits;
    if before == "" {
      assert before + long == long && before + short == short && short + "" == short;
      OperatorStep(op, digits, rest, text);
      OperatorStep(op, digits, "", text);
      NothingBehind();
    } else if IsOperator(before[0]) {
      ReadOperator(before, long, text);
      ReadOperator(before, short, text);
      var n := DigitCount(before[1..]);
      CutAtOperator(before[2 + n..], op, digits, rest, [before[1 + n]]);
    } else {
      ReadOne(before, long, text);
      ReadOne(before, short, text);
      CutAtOperator(before[1..], op, digits, rest, text + [before[0]]);
    }
  }

  lemma NothingBehind()
    ensures AfterOperator("") == []
  {
  }

  lemma ReadOne(before: string, tail: string, text: string)
    requires before != "" && !IsOperator(before[0])
    ensures Segments(before + tail, text) == Segments(before[1..] + tail, text + [before[0]])
  {
    assert (before + tail)[1..] == before[1..] + tail;
  }

  lemma AfterBlank(rest: string)
    requires rest != ""
    ensures AfterOperator(" " + rest) == Segments(rest, " ")
  {
    assert (" " + rest)[1..] == rest && [(" " + rest)[0]] == " ";
  }

  /** A one-word command before `|`, and what follows. */
  lemma AfterPipe(word: string, rest: string)
    requires NoOperator(word) && (rest == "" || !IsDigit(rest[0]))
    ensures Segments(word + ("|" + rest), "") == [Segment(word, true, false, 0)] + AfterOperator(rest)
  {
    hide Segments, AfterOperator;
    ReadText(word, "|" + rest, "");
    OperatorStep('|', "", rest, word);
    assert "" + word == word && ['|'] + "" + rest == "|" + rest;
  }

  // ------------------------------------------------------------------ printing

  /** A command as a user types it: words with blanks before, between and behind them, and an operator. */
  datatype Printed = Printed(gaps: seq<string>, words: seq<string>, pipe: bool, exclamation: bool, count: nat) {
    /** What the parsers see before the operator. */
    function Text(): string {
      if |gaps| == |words| + 1 then Spaced(words, gaps) else ""
    }

    predicate Ends() {
      pipe || exclamation
    }

    function Operator(): string {
      if Ends() then [if pipe then '|' else '!'] + if count > 0 then Decimal(count) else "" else ""
    }

    predicate Ok() {
      && words != [] && |gaps| == |words| + 1 && AllBlank(gaps, "\t ") && AreWords(words, "\t ")
      && AllLack(words, "|!\n\r\0")
      && !(pipe && exclamation) && (Ends() || count == 0)
    }
  }

  function Line(ps: seq<Printed>): string {
    if ps == [] then "" else ps[0].Text() + ps[0].Operator() + Line(ps[1..])
  }

  /**
   A printed line: an operator behind every command but possibly the last, and a blank behind every operator
   unless the next command begins with something else than a digit.
   */
  predicate Typed(ps: seq<Printed>) {
    && (forall i :: 0 <= i < |ps| ==> ps[i].Ok())
    && (forall i :: 0 <= i < |ps| - 1 ==> ps[i].Ends())
    && (forall i :: 0 < i < |ps| ==> ps[i].gaps[0] != "" || !('0' <= ps[i].words[0][0] <= '9'))
  }

  /** The segment of a printed command; `first` says that no operator stands before it. */
  function SegmentOf(p: Printed, first: bool): Segment {
    if !first && !p.Ends() && |p.Text()| == 1 then Lone(p.Text()[0])
    else Segment(p.Text(), p.pipe, p.exclamation, p.count)
  }

  function SegmentsOf(ps: seq<Printed>, first: bool): seq<Segment> {
    if ps == [] then [] else [SegmentOf(ps[0], first)] + SegmentsOf(ps[1..], false)
  }

  lemma TextIsPlain(p: Printed)
    requires p.Ok()
    ensures NoOperator(p.Text()) && OneLine(p.Text())
    ensures |p.Text()| >= |p.gaps[0]| + |p.words[0]| > 0
    ensures p.Text()[0] == if p.gaps[0] != "" then p.gaps[0][0] else p.words[0][0]
  {
    SpacedLacks(p.words, p.gaps, DELIMS, "|!\n\r\0");
    var text := p.Text();
    forall k | 0 <= k < |text| ensures !IsOperator(text[k]) && !IsLineEnd(text[k]) {
      assert text[k] !in "|!\n\r\0";
    }
  }

  /** Reading a printed command up to its end. */
  lemma ReadPrinted(p: Printed, rest: string, text: string)
    requires p.Ok() && (rest == "" || !IsDigit(rest[0])) && (!p.Ends() ==> rest == "")
    ensures Segments(p.Text() + p.Operator() + rest, text) ==
            [Segment(text + p.Text(), p.pipe, p.exclamation, p.count)] + if p.Ends() then AfterOperator(rest) else []
  {
    TextIsPlain(p);
    var tail := p.Operator() + rest;
    assert p.Text() + p.Operator() + rest == p.Text() + tail;
    ReadText(p.Text(), tail, text);
    if p.Ends() {
      var c, digits := if p.pipe then '|' else '!', if p.count > 0 then Decimal(p.count) else "";
      assert tail == [c] + digits + rest;
      ValueOfDecimal(p.count);
      OperatorStep(c, digits, rest, text + p.Text());
    } else {
      assert tail == "";
    }
  }

  lemma LineStarts(ps: seq<Printed>)
    requires Typed(ps) && ps != []
    ensures ps[0].Ok() && Line(ps) != "" && ps[0].Text() != "" && Line(ps)[0] == ps[0].Text()[0]
    ensures !IsOperator(Line(ps)[0])
    ensures |Line(ps)| == 1 <==> !ps[0].Ends() && |ps[0].Text()| == 1
    ensures |ps| > 1 ==> ps[0].Ends()
    ensures Line(ps) == ps[0].Text() + ps[0].Operator() + Line(ps[1..])
  {
    TextIsPlain(ps[0]);
  }

  lemma RestTyped(ps: seq<Printed>)
    requires Typed(ps) && |ps| > 1
    ensures Typed(ps[1..]) && Line(ps[1..]) != "" && !IsDigit(Line(ps[1..])[0])
  {
    var rest := ps[1..];
    assert rest[0] == ps[1];
    assert forall i :: 0 <= i < |rest| ==> rest[i] == ps[i + 1];
    LineStarts(rest);
    TextIsPlain(rest[0]);
  }

  /** Cutting a printed line gives back what stood between its operators, with their numbers. */
  lemma {:induction false} LineSegments(ps: seq<Printed>)
    requires Typed(ps) && ps != []
    ensures Segments(Line(ps), "") == SegmentsOf(ps, true)
    ensures AfterOperator(Line(ps)) == SegmentsOf(ps, false)
  {
    var p, rest := ps[0], Line(ps[1..]);
    LineStarts(ps);
    hide Segments, Typed, Printed.Operator, Printed.Text, Printed.Ok;
    if |ps| > 1 {
      RestTyped(ps);
      LineSegments(ps[1..]);
    } else {
      assert ps[1..] == [];
    }
    ReadPrinted(p, rest, "");
    assert "" + p.Text() == p.Text();
    if |Line(ps)| > 1 {
      BehindOperator(Line(ps));
    }
  }

  lemma {:induction false} LineIsOne(ps: seq<Printed>)
    requires forall i :: 0 <= i < |ps| ==> ps[i].Ok()
    ensures OneLine(Line(ps))
  {
    if ps != [] {
      TextIsPlain(ps[0]);
      var op := ps[0].Operator();
      forall k | 0 <= k < |op| ensures !IsLineEnd(op[k]) {
        assert k > 0 ==> IsDigit(op[k]);
      }
      LineIsOne(ps[1..]);
    }
  }
}
