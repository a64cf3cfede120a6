/** Content lines of an iCalendar stream: folding by UTF-8 octets and the
    CRLF-terminated stream built from folded lines (section 3.1 of RFC 5545).
 */
module ContentLines {

  const CR := '\r'
  const LF := '\n'
  const CRLF := "\r\n"

  /** Octets a single physical line may hold: the first line, then the rest
      (the latter count their leading space). */
  const FIRST_LIMIT: nat := 75
  const NEXT_LIMIT: nat := 74

  // ---------- octet counts ----------

  /** Number of octets in the UTF-8 encoding of one code point. */
  function Utf8Width(c: char): (n: nat)
    ensures 1 <= n <= 4
  {
    var code := c as int;
    if code < 0x80 then 1 else if code < 0x800 then 2 else if code < 0x1_0000 then 3 else 4
  }

  function Octets(s: string): nat {
    if s == "" then 0 else Utf8Width(s[0]) + Octets(s[1..])
  }

  lemma {:induction false} OctetsOfConcat(a: string, b: string)
    ensures Octets(a + b) == Octets(a) + Octets(b)
  {
    if a == "" {
      assert a + b == b;
    } else {
      OctetsOfConcat(a[1..], b);
      assert (a + b)[1..] == a[1..] + b;
    }
  }

  // ---------- the folding as a greedy cut of the text ----------

  /** Length of the longest prefix that fits in the budget. */
  function LongestFit(text: string, budget: nat): (k: nat)
    ensures k <= |text|
  {
    if text == "" || Utf8Width(text[0]) > budget then 0
    else 1 + LongestFit(text[1..], budget - Utf8Width(text[0]))
  }

  lemma {:induction false} FitFits(text: string, budget: nat)
    ensures Octets(text[..LongestFit(text, budget)]) <= budget
  {
    if text != "" && Utf8Width(text[0]) <= budget {
      FitFits(text[1..], budget - Utf8Width(text[0]));
      var k := LongestFit(text, budget);
      assert text[..k][1..] == text[1..][..k - 1];
    }
  }

  /** Every prefix that fits is at most as long as the longest one. */
  lemma {:induction false} FitIsLongest(text: string, budget: nat, k: nat)
    requires k <= |text| && Octets(text[..k]) <= budget
    ensures k <= LongestFit(text, budget)
  {
    if k > 0 {
      assert text[..k][1..] == text[1..][..k - 1];
      FitIsLongest(text[1..], budget - Utf8Width(text[0]), k - 1);
    }
  }

  /** The text cut into pieces, each as long as its budget allows. */
  function Pieces(text: string, budget: nat): (pieces: seq<string>)
    requires 4 <= budget
    ensures |pieces| >= 1
    decreases |text|
  {
    var k := LongestFit(text, budget);
    if k == |text| then [text]
    else [text[..k]] + Pieces(text[k..], NEXT_LIMIT - 1)
  }

  function Concat(pieces: seq<string>): string {
    if pieces == [] then "" else pieces[0] + Concat(pieces[1..])
  }

  function Indent(pieces: seq<string>): (lines: seq<string>)
    ensures |lines| == |pieces|
    ensures forall k :: 0 <= k < |pieces| ==> lines[k] == " " + pieces[k]
  {
    if pieces == [] then [] else [" " + pieces[0]] + Indent(pieces[1..])
  }

  /** The physical lines that carry the pieces: every line but the first begins with a space. */
  function Physical(pieces: seq<string>): (lines: seq<string>)
    ensures |lines| == |pieces|
  {
    if pieces == [] then [] else [pieces[0]] + Indent(pieces[1..])
  }

  /** The folded form of one content line. */
  function Fold(line: string): seq<string> {
    Physical(Pieces(line, FIRST_LIMIT))
  }

  /** Removes the leading white space of every continuation and joins. */
  function Unfold(folded: seq<string>): string {
    if folded == [] then "" else folded[0] + Concat(Dedent(folded[1..]))
  }

  function Dedent(lines: seq<string>): (pieces: seq<string>)
    ensures |pieces| == |lines|
    ensures forall k :: 0 <= k < |lines| && lines[k] != "" ==> pieces[k] == lines[k][1..]
  {
    if lines == [] then []
    else [if lines[0] == "" then "" else lines[0][1..]] + Dedent(lines[1..])
  }

  /** Any way of folding `line` within the same limits, greedy or not. */
  ghost predicate IsFolding(folded: seq<string>, line: string) {
    && |folded| >= 1
    && Octets(folded[0]) <= FIRST_LIMIT
    && (forall k :: 1 <= k < |folded| ==> IsContinuation(folded[k]) && Octets(folded[k]) <= NEXT_LIMIT)
    && Unfold(folded) == line
  }

  predicate IsContinuation(physical: string) {
    physical != "" && physical[0] == ' '
  }

  // ---------- what folding keeps ----------

  lemma {:induction false} PiecesKeepText(text: string, budget: nat)
    requires 4 <= budget
    ensures Concat(Pieces(text, budget)) == text
    decreases |text|
  {
    var k := LongestFit(text, budget);
    if k < |text| {
      var rest := Pieces(text[k..], NEXT_LIMIT - 1);
      PiecesKeepText(text[k..], NEXT_LIMIT - 1);
      assert ([text[..k]] + rest)[1..] == rest;
    } else {
      assert [text][1..] == [];
    }
  }

  lemma {:induction false} PiecesFit(text: string, budget: nat, pieces: seq<string>)
    requires 4 <= budget && pieces == Pieces(text, budget)
    ensures Octets(pieces[0]) <= budget
    ensures forall k :: 1 <= k < |pieces| ==> Octets(pieces[k]) <= NEXT_LIMIT - 1
    decreases |text|
  {
    var k := LongestFit(text, budget);
    FitFits(text, budget);
    if k < |text| {
      PiecesFit(text[k..], NEXT_LIMIT - 1, pieces[1..]);
    } else {
      assert text[..k] == text;
    }
  }

  lemma DedentOfIndent(pieces: seq<string>)
    ensures Dedent(Indent(pieces)) == pieces
  {
    forall k | 0 <= k < |pieces| ensures Dedent(Indent(pieces))[k] == pieces[k] {
      assert (" " + pieces[k])[1..] == pieces[k];
    }
  }

  /** Folding stays within the limits and loses nothing. */
  lemma FoldIsFolding(line: string)
    ensures IsFolding(Fold(line), line)
  {
    var pieces := Pieces(line, FIRST_LIMIT);
    PiecesKeepText(line, FIRST_LIMIT);
    PiecesFit(line, FIRST_LIMIT, pieces);
    DedentOfIndent(pieces[1..]);
    assert pieces == [pieces[0]] + pieces[1..];
    forall k | 1 <= k < |Fold(line)|
      ensures IsContinuation(Fold(line)[k]) && Octets(Fold(line)[k]) <= NEXT_LIMIT
    {
      OctetsIndented(pieces[k]);
    }
  }

  /** The greedy cut, even when it is already ahead of another cut, needs no more pieces. */
  lemma {:induction false} GreedyStaysAhead(text: string, budget: nat, others: seq<string>, ahead: nat)
    requires 4 <= budget && |others| >= 1
    requires Octets(others[0]) <= budget
    requires forall k :: 1 <= k < |others| ==> Octets(others[k]) <= NEXT_LIMIT - 1
    requires ahead <= |Concat(others)| && text == Concat(others)[ahead..]
    ensures |Pieces(text, budget)| <= |others|
    decreases |others|
  {
    var k := LongestFit(text, budget);
    if k < |text| {
      var rest := Concat(others[1..]);
      if ahead < |others[0]| {
        var skipped, left := others[0][..ahead], others[0][ahead..];
        assert skipped + left == others[0];
        OctetsOfConcat(skipped, left);
        assert text[..|left|] == left;
        FitIsLongest(text, budget, |left|);
      }
      assert text[k..] == rest[ahead + k - |others[0]|..];
      GreedyStaysAhead(text[k..], NEXT_LIMIT - 1, others[1..], ahead + k - |others[0]|);
    }
  }

  /** No folding within the same limits has fewer physical lines. */
  lemma FoldIsShortest(line: string, other: seq<string>)
    requires IsFolding(other, line)
    ensures |Fold(line)| <= |other|
  {
    var others := [other[0]] + Dedent(other[1..]);
    assert others[1..] == Dedent(other[1..]);
    assert Concat(others) == line;
    forall k | 1 <= k < |others| ensures Octets(others[k]) <= NEXT_LIMIT - 1 {
      assert IsContinuation(other[k]);
      assert other[k] == " " + others[k];
      OctetsIndented(others[k]);
    }
    assert line[0..] == line;
    GreedyStaysAhead(line, FIRST_LIMIT, others, 0);
  }

  // ---------- the accumulator loop ----------

  lemma {:induction false} FitStops(piece: string, rest: string, budget: nat)
    requires Octets(piece) <= budget
    requires rest != "" ==> Octets(piece) + Utf8Width(rest[0]) > budget
    ensures LongestFit(piece + rest, budget) == |piece|
  {
    if piece == "" {
      assert piece + rest == rest;
    } else {
      FitStops(piece[1..], rest, budget - Utf8Width(piece[0]));
      assert (piece + rest)[1..] == piece[1..] + rest;
    }
  }

  function Budget(folded: seq<string>): nat {
    if folded == [] then FIRST_LIMIT else NEXT_LIMIT - 1
  }

  /** What the accumulator loop knows after `i` characters: `done` and `piece`
      are the closed pieces and the open one, without their leading space. */
  ghost predicate Progress(line: string, i: nat, folded: seq<string>, current: string, done: seq<string>, piece: string)
  {
    && i <= |line|
    && current == (if folded == [] then piece else " " + piece)
    && (piece == "" ==> i == 0 && folded == [])
    && Octets(piece) <= Budget(folded)
    && folded == Physical(done)
    && Pieces(line, FIRST_LIMIT) == done + Pieces(piece + line[i..], Budget(folded))
  }

  lemma OctetsOfChar(c: char)
    ensures Octets([c]) == Utf8Width(c)
  {
    assert [c][1..] == "";
  }

  lemma Begin(line: string)
    ensures Progress(line, 0, [], "", [], "")
  {
    assert "" + line[0..] == line;
  }

  lemma Extend(line: string, i: nat, folded: seq<string>, current: string, done: seq<string>, piece: string)
    requires i < |line| && Progress(line, i, folded, current, done, piece)
    requires current == "" || Octets(current) + Utf8Width(line[i]) <= if folded == [] then 75 else 74
    ensures Progress(line, i + 1, folded, current + [line[i]], done, piece + [line[i]])
  {
    OctetsSnoc(piece, line[i]);
    OctetsIndented(piece);
    assert piece + line[i..] == (piece + [line[i]]) + line[i + 1..];
    assert (" " + piece) + [line[i]] == " " + (piece + [line[i]]);
  }

  lemma Break(line: string, i: nat, folded: seq<string>, current: string, done: seq<string>, piece: string)
    requires i < |line| && Progress(line, i, folded, current, done, piece)
    requires current != "" && Octets(current) + Utf8Width(line[i]) > if folded == [] then 75 else 74
    ensures Progress(line, i + 1, folded + [current], " " + [line[i]], done + [piece], [line[i]])
  {
    OctetsIndented(piece);
    OctetsOfChar(line[i]);
    PieceCloses(line, i, piece, Budget(folded), done);
    LineCloses(folded, current, done, piece);
  }

  lemma OctetsSnoc(s: string, c: char)
    ensures Octets(s + [c]) == Octets(s) + Utf8Width(c)
  {
    OctetsOfConcat(s, [c]);
    OctetsOfChar(c);
  }

  lemma OctetsIndented(piece: string)
    ensures Octets(" " + piece) == 1 + Octets(piece)
  {
    OctetsOfConcat(" ", piece);
    OctetsOfChar(' ');
  }

  lemma LineCloses(folded: seq<string>, current: string, done: seq<string>, piece: string)
    requires folded == Physical(done) && current == (if folded == [] then piece else " " + piece)
    ensures folded + [current] == Physical(done + [piece])
  {
    if done != [] {
      assert (done + [piece])[1..] == done[1..] + [piece];
    }
  }

  lemma PieceCloses(line: string, i: nat, piece: string, budget: nat, done: seq<string>)
    requires 4 <= budget && Octets(piece) <= budget && i < |line|
    requires Octets(piece) + Utf8Width(line[i]) > budget
    ensures done + Pieces(piece + line[i..], budget)
            == (done + [piece]) + Pieces([line[i]] + line[i + 1..], NEXT_LIMIT - 1)
  {
    var rest := line[i..];
    FitStops(piece, rest, budget);
    assert (piece + rest)[..|piece|] == piece && (piece + rest)[|piece|..] == rest;
    assert [line[i]] + line[i + 1..] == rest;
  }

  lemma Finish(line: string, folded: seq<string>, current: string, done: seq<string>, piece: string)
    requires Progress(line, |line|, folded, current, done, piece)
    ensures folded + [current] == Fold(line)
  {
    assert piece + line[|line|..] == piece + "" == piece;
    FitStops(piece, "", Budget(folded));
    LineCloses(folded, current, done, piece);
  }

  /** Folds one content line, character by character. */
  method FoldICalendarLine(line: string) returns (folded: seq<string>)
    ensures folded == Fold(line)
  {
    folded := [];
    var current := "";
    var currentBytes := 0;
    ghost var done: seq<string>, piece := [], "";
    Begin(line);
    for i := 0 to |line|
      invariant Progress(line, i, folded, current, done, piece)
      invariant currentBytes == Octets(current)
    {
      var character := line[i];
      var characterBytes := Utf8Width(character);
      var limit := if |folded| == 0 then 75 else 74;
      if current != "" && currentBytes + characterBytes > limit {
        Break(line, i, folded, current, done, piece);
        done, piece := done + [piece], [character];
        folded := folded + [current];
        OctetsSnoc(" ", character);
        OctetsOfChar(' ');
        current := " " + [character];
        currentBytes := 1 + characterBytes;
      } else {
        Extend(line, i, folded, current, done, piece);
        piece := piece + [character];
        OctetsSnoc(current, character);
        current := current + [character];
        currentBytes := currentBytes + characterBytes;
      }
    }
    Finish(line, folded, current, done, piece);
    folded := folded + [current];
  }
}
