/** The UTF-8 encoding itself (section 3 of RFC 3629): that what folding counts are the octets on the wire, and
    its limits in octets.
 */
module Utf8 {
  import opened ContentLines
  import opened CalendarText

  /** The octets of one code point. */
  function Encode(c: char): seq<int> {
    var code := c as int;
    if code < 0x80 then [code]
    else if code < 0x800 then [0xC0 + code / 0x40, 0x80 + code % 0x40]
    else if code < 0x1_0000 then [0xE0 + code / 0x1000, 0x80 + code / 0x40 % 0x40, 0x80 + code % 0x40]
    else [0xF0 + code / 0x4_0000, 0x80 + code / 0x1000 % 0x40, 0x80 + code / 0x40 % 0x40, 0x80 + code % 0x40]
  }

  function EncodeText(s: string): seq<int> { if s == "" then [] else Encode(s[0]) + EncodeText(s[1..]) }

  /** How many octets the first one announces. */
  function Announced(first: int): nat {
    if first < 0x80 then 1 else if first < 0xE0 then 2 else if first < 0xF0 then 3 else 4
  }

  /** The code point that the announced octets carry, six bits in each but the first. */
  function CodeOf(octets: seq<int>): int
    requires octets != [] && |octets| >= Announced(octets[0])
  {
    match Announced(octets[0])
    case 1 => octets[0]
    case 2 => (octets[0] - 0xC0) * 0x40 + octets[1] - 0x80
    case 3 => ((octets[0] - 0xE0) * 0x40 + octets[1] - 0x80) * 0x40 + octets[2] - 0x80
    case _ => (((octets[0] - 0xF0) * 0x40 + octets[1] - 0x80) * 0x40 + octets[2] - 0x80) * 0x40 + octets[3] - 0x80
  }

  /** Reads octets back to code points. */
  function Decode(octets: seq<int>): seq<int>
    decreases |octets|
  {
    if octets == [] || |octets| < Announced(octets[0]) then []
    else [CodeOf(octets)] + Decode(octets[Announced(octets[0])..])
  }

  function Codes(s: string): seq<int> { if s == "" then [] else [s[0] as int] + Codes(s[1..]) }

  lemma Sixes(code: nat)
    ensures (code / 0x40) * 0x40 + code % 0x40 == code
    ensures code / 0x1000 == code / 0x40 / 0x40 && code / 0x4_0000 == code / 0x1000 / 0x40
  {
  }

  lemma CodeIsRead(c: char, rest: seq<int>)
    ensures var octets := Encode(c) + rest;
            && Announced(octets[0]) == |Encode(c)| && CodeOf(octets) == c as int && octets[|Encode(c)|..] == rest
  {
    var code := c as int;
    Sixes(code);
    Sixes(code / 0x40);
    Sixes(code / 0x1000);
    assert code < 0x11_0000;
  }

  lemma OctetsAreBytes(c: char)
    ensures forall k :: 0 <= k < |Encode(c)| ==> 0 <= Encode(c)[k] < 0x100
  {
    assert c as int < 0x11_0000;
  }

  /** The octets, each a byte, read back to the text's code points. */
  lemma {:induction false} EncodingRoundTrip(s: string)
    ensures Decode(EncodeText(s)) == Codes(s)
    ensures forall k :: 0 <= k < |EncodeText(s)| ==> 0 <= EncodeText(s)[k] < 0x100
  {
    if s != "" {
      EncodingRoundTrip(s[1..]);
      OctetsAreBytes(s[0]);
      CodeIsRead(s[0], EncodeText(s[1..]));
    }
  }

  /** What folding counts are these octets. */
  lemma {:induction false} OctetsAreCounted(s: string)
    ensures Octets(s) == |EncodeText(s)|
  {
    if s != "" { OctetsAreCounted(s[1..]); }
  }

  /** A way to cut a line into physical lines: each within its octets, and what follows the first one begins with a
      space, without which the physical lines make up the line. */
  ghost predicate Carries(folded: seq<string>, line: string) {
    && folded != [] && |EncodeText(folded[0])| <= 75
    && (forall k :: 1 <= k < |folded| ==> folded[k] != "" && folded[k][0] == ' ' && |EncodeText(folded[k])| <= 74)
    && line == folded[0] + Rest(folded)
  }

  /** The continuations without their leading spaces. */
  function Rest(folded: seq<string>): string {
    if |folded| < 2 then ""
    else if folded[|folded| - 1] == "" then Rest(folded[..|folded| - 1])
    else Rest(folded[..|folded| - 1]) + folded[|folded| - 1][1..]
  }

  lemma {:induction false} ConcatSnoc(pieces: seq<string>, last: string)
    ensures Concat(pieces + [last]) == Concat(pieces) + last
  {
    if pieces == [] {
      assert [] + [last] == [last] && [last][1..] == [];
    } else {
      assert (pieces + [last])[1..] == pieces[1..] + [last];
      ConcatSnoc(pieces[1..], last);
    }
  }

  lemma {:induction false} DedentSnoc(lines: seq<string>, last: string)
    ensures Dedent(lines + [last]) == Dedent(lines) + [if last == "" then "" else last[1..]]
  {
    if lines == [] {
      assert [] + [last] == [last] && [last][1..] == [];
    } else {
      assert (lines + [last])[1..] == lines[1..] + [last];
      DedentSnoc(lines[1..], last);
    }
  }

  lemma {:induction false} RestIs(folded: seq<string>)
    requires folded != []
    ensures Rest(folded) == Concat(Dedent(folded[1..]))
  {
    var n := |folded| - 1;
    if n > 0 {
      RestIs(folded[..n]);
      assert folded[1..] == folded[..n][1..] + [folded[n]];
      DedentSnoc(folded[..n][1..], folded[n]);
      ConcatSnoc(Dedent(folded[..n][1..]), if folded[n] == "" then "" else folded[n][1..]);
    }
  }

  lemma CarriesIffFolding(folded: seq<string>, line: string)
    ensures Carries(folded, line) <==> IsFolding(folded, line)
  {
    if folded != [] {
      RestIs(folded);
      forall k | 0 <= k < |folded| ensures Octets(folded[k]) == |EncodeText(folded[k])| { OctetsAreCounted(folded[k]); }
    }
  }

  /** Folding puts at most 75 octets on the first physical line and 74 on the others, cuts no code point, loses
      nothing, and takes no more physical lines than any other way to do that. */
  lemma FoldedInOctets(line: string, other: seq<string>)
    ensures Carries(Fold(line), line)
    ensures Carries(other, line) ==> |Fold(line)| <= |other|
  {
    FoldIsFolding(line);
    CarriesIffFolding(Fold(line), line);
    CarriesIffFolding(other, line);
    if Carries(other, line) { FoldIsShortest(line, other); }
  }

  /** No line of the emitted stream, between one CRLF and the next, has more than 75 octets. */
  lemma StreamInOctets(lines: seq<string>, k: nat)
    requires lines != [] && forall i :: 0 <= i < |lines| ==> NoCrlf(lines[i])
    requires k < |SplitAtCrlf(EmitCalendar(lines))|
    ensures |EncodeText(SplitAtCrlf(EmitCalendar(lines))[k])| <= 75
  {
    FoldAllHasNoCrlf(lines);
    SplitUndoesJoin(FoldAll(lines));
    CalendarLinesAreShort(lines);
    OctetsAreCounted(FoldAll(lines)[k]);
  }
}
