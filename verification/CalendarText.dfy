/** TEXT values of an iCalendar stream: the four escaping passes, the reader that undoes them
    (section 3.3.11 of RFC 5545), and the reader that recovers the content lines of a whole
    stream (section 3.1 of RFC 5545).
 */
module CalendarText {
  import opened ContentLines

  // ---------- the four passes ----------

  /** Replaces every occurrence of one character. */
  function ReplaceAll(s: string, c: char, replacement: string): string {
    if s == "" then "" else (if s[0] == c then replacement else [s[0]]) + ReplaceAll(s[1..], c, replacement)
  }

  predicate StartsWithCrlf(s: string) { |s| >= 2 && s[0] == CR && s[1] == LF }

  /** Replaces every LF, together with a CR right before it. */
  function ReplaceLineBreaks(s: string, replacement: string): string {
    if s == "" then ""
    else if StartsWithCrlf(s) then replacement + ReplaceLineBreaks(s[2..], replacement)
    else if s[0] == LF then replacement + ReplaceLineBreaks(s[1..], replacement)
    else [s[0]] + ReplaceLineBreaks(s[1..], replacement)
  }

  /** The four replacements, one after the other over the whole text. */
  function EscapeText(value: string): string {
    var backslashes := ReplaceAll(value, '\\', "\\\\");
    var breaks := ReplaceLineBreaks(backslashes, "\\n");
    var semicolons := ReplaceAll(breaks, ';', "\\;");
    ReplaceAll(semicolons, ',', "\\,")
  }

  // ---------- one left-to-right pass ----------

  function EscapedChar(c: char): string {
    if c == '\\' then "\\\\" else if c == LF then "\\n" else if c == ';' then "\\;" else if c == ',' then "\\," else [c]
  }

  function Transduce(s: string): string {
    if s == "" then ""
    else if StartsWithCrlf(s) then "\\n" + Transduce(s[2..])
    else EscapedChar(s[0]) + Transduce(s[1..])
  }

  lemma {:induction false} ReplaceAllOfConcat(a: string, b: string, c: char, replacement: string)
    ensures ReplaceAll(a + b, c, replacement) == ReplaceAll(a, c, replacement) + ReplaceAll(b, c, replacement)
  {
    if a == "" {
      assert a + b == b;
    } else {
      var head := if a[0] == c then replacement else [a[0]];
      var left, right := ReplaceAll(a[1..], c, replacement), ReplaceAll(b, c, replacement);
      ReplaceAllOfConcat(a[1..], b, c, replacement);
      assert (a + b)[1..] == a[1..] + b;
      assert head + (left + right) == (head + left) + right;
    }
  }

  lemma ReplaceAllOfChar(x: char, c: char, replacement: string)
    ensures ReplaceAll([x], c, replacement) == if x == c then replacement else [x]
  {
    assert [x][1..] == "";
  }

  /** The last two passes over a head of at most two characters and a tail. */
  lemma LastPasses(head: string, tail: string)
    ensures ReplaceAll(ReplaceAll(head + tail, ';', "\\;"), ',', "\\,")
            == ReplaceAll(ReplaceAll(head, ';', "\\;"), ',', "\\,") + ReplaceAll(ReplaceAll(tail, ';', "\\;"), ',', "\\,")
  {
    ReplaceAllOfConcat(head, tail, ';', "\\;");
    ReplaceAllOfConcat(ReplaceAll(head, ';', "\\;"), ReplaceAll(tail, ';', "\\;"), ',', "\\,");
  }

  function LastTwo(s: string): string { ReplaceAll(ReplaceAll(s, ';', "\\;"), ',', "\\,") }

  lemma LastTwoOfChar(x: char)
    ensures LastTwo([x]) == if x == ';' then "\\;" else if x == ',' then "\\," else [x]
  {
    ReplaceAllOfChar(x, ';', "\\;");
    ReplaceAllOfChar(x, ',', "\\,");
    if x == ';' {
      assert "\\;" == ['\\'] + [';'];
      ReplaceAllOfConcat(['\\'], [';'], ',', "\\,");
      ReplaceAllOfChar('\\', ',', "\\,");
      ReplaceAllOfChar(';', ',', "\\,");
    }
  }

  lemma LastTwoOfPair(x: char)
    requires x == '\\' || x == 'n'
    ensures LastTwo(['\\', x]) == ['\\', x]
  {
    assert ['\\', x] == ['\\'] + [x];
    LastPasses(['\\'], [x]);
    LastTwoOfChar('\\');
    LastTwoOfChar(x);
  }

  function Doubled(s: string): string { ReplaceAll(s, '\\', "\\\\") }

  /** Doubling backslashes neither makes nor breaks a line break. */
  lemma DoublingKeepsBreaks(s: string)
    ensures StartsWithCrlf(Doubled(s)) == StartsWithCrlf(s)
  {
    if s != "" && s[0] == CR {
      var rest := s[1..];
      assert Doubled(s) == [CR] + Doubled(rest);
      if rest != "" {
        assert Doubled(rest)[0] == rest[0];
      }
    }
  }

  lemma FirstPasses(s: string)
    requires s != ""
    ensures StartsWithCrlf(s) ==>
      ReplaceLineBreaks(Doubled(s), "\\n") == "\\n" + ReplaceLineBreaks(Doubled(s[2..]), "\\n")
    ensures !StartsWithCrlf(s) ==>
      ReplaceLineBreaks(Doubled(s), "\\n")
      == (if s[0] == '\\' then "\\\\" else if s[0] == LF then "\\n" else [s[0]]) + ReplaceLineBreaks(Doubled(s[1..]), "\\n")
  {
    var t, rest := Doubled(s), Doubled(s[1..]);
    DoublingKeepsBreaks(s);
    if StartsWithCrlf(s) {
      assert s[1..][1..] == s[2..];
      assert t[1..] == rest && t[2..] == rest[1..] == Doubled(s[2..]);
    } else if s[0] == '\\' {
      var u := "\\" + rest;
      assert t[1..] == u && u[1..] == rest;
      assert ReplaceLineBreaks(u, "\\n") == "\\" + ReplaceLineBreaks(rest, "\\n");
      assert "\\" + ("\\" + ReplaceLineBreaks(rest, "\\n")) == "\\\\" + ReplaceLineBreaks(rest, "\\n");
    } else {
      assert t[1..] == rest;
    }
  }

  /** The four passes in sequence are one left-to-right transducer. */
  lemma {:induction false} EscapeIsTransducer(s: string)
    ensures EscapeText(s) == Transduce(s)
  {
    if s != "" {
      FirstPasses(s);
      var tail := if StartsWithCrlf(s) then s[2..] else s[1..];
      var head := if StartsWithCrlf(s) || s[0] == LF then "\\n" else if s[0] == '\\' then "\\\\" else [s[0]];
      EscapeIsTransducer(tail);
      LastPasses(head, ReplaceLineBreaks(Doubled(tail), "\\n"));
      LastTwoOfPair('n');
      LastTwoOfPair('\\');
      LastTwoOfChar(s[0]);
      assert LastTwo(head) == if StartsWithCrlf(s) then "\\n" else EscapedChar(s[0]);
    }
  }

  // ---------- the reader of TEXT values ----------

  /** Reads an escaped TEXT value; an unknown escape is left as it is. */
  function Unescape(s: string): string {
    if s == "" then ""
    else if s[0] == '\\' && |s| >= 2 && s[1] in {'\\', ';', ','} then [s[1]] + Unescape(s[2..])
    else if s[0] == '\\' && |s| >= 2 && s[1] in {'n', 'N'} then [LF] + Unescape(s[2..])
    else [s[0]] + Unescape(s[1..])
  }

  /** The text with every CRLF read as LF. */
  function CrlfAsLf(s: string): string { ReplaceLineBreaks(s, [LF]) }

  lemma UnescapeOfEscapedChar(c: char, tail: string)
    ensures Unescape(EscapedChar(c) + tail) == [c] + Unescape(tail)
    ensures LF !in EscapedChar(c)
  {
    var s := EscapedChar(c) + tail;
    if |EscapedChar(c)| == 2 {
      assert s[2..] == tail;
    } else {
      assert s[1..] == tail;
    }
  }

  lemma {:induction false} TransduceRoundTrip(s: string)
    ensures Unescape(Transduce(s)) == CrlfAsLf(s)
    ensures LF !in Transduce(s)
  {
    if s != "" {
      if StartsWithCrlf(s) {
        TransduceRoundTrip(s[2..]);
        UnescapeOfEscapedChar(LF, Transduce(s[2..]));
      } else {
        TransduceRoundTrip(s[1..]);
        UnescapeOfEscapedChar(s[0], Transduce(s[1..]));
      }
    }
  }

  /** What a reader gets back from the escaped text, which fits on one content line. */
  lemma EscapeRoundTrip(value: string)
    ensures Unescape(EscapeText(value)) == CrlfAsLf(value)
    ensures LF !in EscapeText(value)
  {
    EscapeIsTransducer(value);
    TransduceRoundTrip(value);
  }

  /** Each character escaped on its own. */
  function EscapeEach(s: string): string {
    if s == "" then "" else EscapedChar(s[0]) + EscapeEach(s[1..])
  }

  lemma {:induction false} TransduceSeesCrlfAsLf(s: string)
    ensures Transduce(s) == EscapeEach(CrlfAsLf(s))
  {
    if s != "" {
      var tail := if StartsWithCrlf(s) then s[2..] else s[1..];
      TransduceSeesCrlfAsLf(tail);
      assert CrlfAsLf(s)[1..] == CrlfAsLf(tail);
    }
  }

  /** A TEXT value by the grammar of section 3.3.11 of RFC 5545: no semicolon, comma, backslash or line feed but
      in an escape. */
  predicate IsTextValue(s: string) {
    s == ""
    || (s[0] == '\\' && |s| >= 2 && s[1] in {'\\', ';', ',', 'n', 'N'} && IsTextValue(s[2..]))
    || (s[0] !in {'\\', ';', ',', '\n'} && IsTextValue(s[1..]))
  }

  lemma ValueWithEscaped(c: char, tail: string)
    requires IsTextValue(tail)
    ensures IsTextValue(EscapedChar(c) + tail)
  {
    var s := EscapedChar(c) + tail;
    if |EscapedChar(c)| == 2 {
      assert s[2..] == tail;
    } else {
      assert s[1..] == tail;
    }
  }

  lemma {:induction false} EachIsTextValue(s: string)
    ensures IsTextValue(EscapeEach(s))
  {
    if s != "" {
      EachIsTextValue(s[1..]);
      ValueWithEscaped(s[0], EscapeEach(s[1..]));
    }
  }

  /** What escaping gives is always a TEXT value. */
  lemma EscapedIsTextValue(value: string)
    ensures IsTextValue(EscapeText(value))
  {
    EscapeIsTransducer(value);
    TransduceSeesCrlfAsLf(value);
    EachIsTextValue(CrlfAsLf(value));
  }

  /** Exactly the CR right before an LF is dropped: a text without such a pair is read as it is, and at each
      pair one LF stands for it. */
  lemma {:induction false} OnlyPairsAreRead(s: string)
    requires NoCrlf(s)
    ensures CrlfAsLf(s) == s
  {
    if s != "" {
      if |s| >= 2 { assert s[1] == LF ==> s[0] != CR; }
      OnlyPairsAreRead(s[1..]);
    }
  }

  lemma {:induction false} PairIsRead(a: string, b: string)
    ensures CrlfAsLf(a + "\r\n" + b) == CrlfAsLf(a) + "\n" + CrlfAsLf(b)
    decreases |a|
  {
    var s := a + "\r\n" + b;
    if a == "" {
      assert s[2..] == b;
    } else if StartsWithCrlf(a) {
      assert s[2..] == a[2..] + "\r\n" + b;
      PairIsRead(a[2..], b);
    } else {
      assert !StartsWithCrlf(s) by { if |a| == 1 { assert s[1] == '\r'; } }
      assert s[1..] == a[1..] + "\r\n" + b;
      PairIsRead(a[1..], b);
    }
  }

  /** Two texts are escaped alike exactly when a reader is meant to see the same text. */
  lemma EscapeSeparates(s: string, t: string)
    ensures EscapeText(s) == EscapeText(t) <==> CrlfAsLf(s) == CrlfAsLf(t)
  {
    EscapeRoundTrip(s);
    EscapeRoundTrip(t);
    EscapeIsTransducer(s);
    EscapeIsTransducer(t);
    TransduceSeesCrlfAsLf(s);
    TransduceSeesCrlfAsLf(t);
  }

  // ---------- the stream ----------

  function Join(lines: seq<string>, separator: string): string {
    if lines == [] then ""
    else if |lines| == 1 then lines[0]
    else lines[0] + separator + Join(lines[1..], separator)
  }

  function FoldAll(lines: seq<string>): seq<string> {
    if lines == [] then [] else Fold(lines[0]) + FoldAll(lines[1..])
  }

  /** The calendar file: every logical line folded, joined with CRLF, one CRLF at the end. */
  function EmitCalendar(lines: seq<string>): string {
    Join(FoldAll(lines), CRLF) + CRLF
  }

  /** Cuts a stream into its CRLF-terminated lines. */
  function SplitAtCrlf(s: string): seq<string> {
    if s == "" then []
    else if StartsWithCrlf(s) then [""] + SplitAtCrlf(s[2..])
    else
      var rest := SplitAtCrlf(s[1..]);
      if rest == [] then [[s[0]]] else [[s[0]] + rest[0]] + rest[1..]
  }

  predicate StartsWithWhiteSpace(line: string) { line != "" && line[0] in {' ', '\t'} }

  /** Number of continuation lines at the front. */
  function ContinuationRun(physical: seq<string>): (n: nat)
    ensures n <= |physical|
  {
    if physical == [] || !StartsWithWhiteSpace(physical[0]) then 0 else 1 + ContinuationRun(physical[1..])
  }

  /** Attaches each continuation line to the line it continues. */
  function LogicalLines(physical: seq<string>): seq<string>
    decreases |physical|
  {
    if physical == [] then []
    else
      var n := 1 + ContinuationRun(physical[1..]);
      [Unfold(physical[..n])] + LogicalLines(physical[n..])
  }

  function ReadCalendar(stream: string): seq<string> {
    LogicalLines(SplitAtCrlf(stream))
  }

  // ---------- reading back what was emitted ----------

  /** No CR is directly followed by LF inside the line. */
  ghost predicate NoCrlf(line: string) {
    forall i, j :: 0 <= i && i + 1 == j < |line| && line[j] == LF ==> line[i] != CR
  }

  lemma {:induction false} SplitFirstLine(line: string, tail: string)
    requires NoCrlf(line)
    ensures SplitAtCrlf(line + CRLF + tail) == [line] + SplitAtCrlf(tail)
  {
    var s := line + CRLF + tail;
    if line == "" {
      assert s[2..] == tail;
    } else {
      assert s[1..] == line[1..] + CRLF + tail;
      assert !StartsWithCrlf(s) by {
        if |line| >= 2 {
          assert line[1] == LF ==> line[0] != CR;
        }
      }
      SplitFirstLine(line[1..], tail);
      assert [line[0]] + line[1..] == line;
    }
  }

  lemma {:induction false} SplitUndoesJoin(lines: seq<string>)
    requires lines != [] && forall k :: 0 <= k < |lines| ==> NoCrlf(lines[k])
    ensures SplitAtCrlf(Join(lines, CRLF) + CRLF) == lines
  {
    if |lines| == 1 {
      SplitFirstLine(lines[0], "");
      assert lines[0] + CRLF + "" == lines[0] + CRLF;
    } else {
      SplitFirstLine(lines[0], Join(lines[1..], CRLF) + CRLF);
      assert lines[0] + CRLF + (Join(lines[1..], CRLF) + CRLF) == Join(lines, CRLF) + CRLF;
      SplitUndoesJoin(lines[1..]);
    }
  }

  lemma {:induction false} PiecesHaveNoCrlf(text: string, budget: nat)
    requires 4 <= budget && NoCrlf(text)
    ensures forall k :: 0 <= k < |Pieces(text, budget)| ==> NoCrlf(Pieces(text, budget)[k])
    decreases |text|
  {
    var n := LongestFit(text, budget);
    if n < |text| {
      assert NoCrlf(text[..n]);
      assert NoCrlf(text[n..]) by {
        forall i, j | 0 <= i && i + 1 == j < |text[n..]| && text[n..][j] == LF ensures text[n..][i] != CR {
          assert text[n + i] != CR by { assert text[n + j] == LF; }
        }
      }
      PiecesHaveNoCrlf(text[n..], NEXT_LIMIT - 1);
    }
  }

  lemma FoldHasNoCrlf(line: string)
    requires NoCrlf(line)
    ensures forall k :: 0 <= k < |Fold(line)| ==> NoCrlf(Fold(line)[k])
  {
    var pieces := Pieces(line, FIRST_LIMIT);
    PiecesHaveNoCrlf(line, FIRST_LIMIT);
    forall k | 1 <= k < |Fold(line)| ensures NoCrlf(Fold(line)[k]) {
      var physical := " " + pieces[k];
      assert Fold(line)[k] == physical;
      forall i, j | 0 <= i && i + 1 == j < |physical| && physical[j] == LF ensures physical[i] != CR {
        if i > 0 {
          assert pieces[k][i - 1] == physical[i] && pieces[k][j - 1] == physical[j];
        }
      }
    }
  }

  lemma {:induction false} FoldAllHasNoCrlf(lines: seq<string>)
    requires forall k :: 0 <= k < |lines| ==> NoCrlf(lines[k])
    ensures forall k :: 0 <= k < |FoldAll(lines)| ==> NoCrlf(FoldAll(lines)[k])
    ensures |FoldAll(lines)| >= |lines|
  {
    if lines != [] {
      FoldHasNoCrlf(lines[0]);
      FoldAllHasNoCrlf(lines[1..]);
    }
  }

  lemma FoldHead(line: string)
    requires !StartsWithWhiteSpace(line)
    ensures !StartsWithWhiteSpace(Fold(line)[0])
  {
  }

  lemma {:induction false} RunOfContinuations(front: seq<string>, back: seq<string>)
    requires forall k :: 0 <= k < |front| ==> IsContinuation(front[k])
    requires back != [] ==> !StartsWithWhiteSpace(back[0])
    ensures ContinuationRun(front + back) == |front|
  {
    if front == [] {
      assert front + back == back;
    } else {
      assert (front + back)[1..] == front[1..] + back;
      assert IsContinuation(front[0]);
      RunOfContinuations(front[1..], back);
    }
  }

  lemma FirstLogicalLine(first: seq<string>, rest: seq<string>)
    requires first != [] && forall k :: 1 <= k < |first| ==> IsContinuation(first[k])
    requires rest != [] ==> !StartsWithWhiteSpace(rest[0])
    ensures LogicalLines(first + rest) == [Unfold(first)] + LogicalLines(rest)
  {
    var all := first + rest;
    assert all[1..] == first[1..] + rest;
    RunOfContinuations(first[1..], rest);
    assert all[..|first|] == first && all[|first|..] == rest;
  }

  lemma {:induction false} UnfoldUndoesFoldAll(lines: seq<string>)
    requires forall k :: 1 <= k < |lines| ==> !StartsWithWhiteSpace(lines[k])
    ensures LogicalLines(FoldAll(lines)) == lines
  {
    if lines != [] {
      FoldIsFolding(lines[0]);
      if |lines| > 1 {
        FoldHead(lines[1]);
      }
      FirstLogicalLine(Fold(lines[0]), FoldAll(lines[1..]));
      UnfoldUndoesFoldAll(lines[1..]);
    }
  }

  /** A reader recovers exactly the logical lines, as long as no line contains CRLF and no line
      after the first begins with white space. */
  lemma CalendarRoundTrip(lines: seq<string>)
    requires lines != []
    requires forall k :: 0 <= k < |lines| ==> NoCrlf(lines[k])
    requires forall k :: 1 <= k < |lines| ==> !StartsWithWhiteSpace(lines[k])
    ensures ReadCalendar(EmitCalendar(lines)) == lines
  {
    FoldAllHasNoCrlf(lines);
    SplitUndoesJoin(FoldAll(lines));
    UnfoldUndoesFoldAll(lines);
  }

  /** Every physical line of the file holds at most 75 octets. */
  lemma {:induction false} CalendarLinesAreShort(lines: seq<string>)
    ensures forall k :: 0 <= k < |FoldAll(lines)| ==> Octets(FoldAll(lines)[k]) <= FIRST_LIMIT
  {
    if lines != [] {
      FoldIsFolding(lines[0]);
      CalendarLinesAreShort(lines[1..]);
    }
  }
}
