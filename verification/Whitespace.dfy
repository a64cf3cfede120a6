/** The white space that string trimming removes: WhiteSpace and LineTerminator of ECMAScript. */
module Whitespace {

  predicate IsSpace(c: char) {
    || c == ' ' || '\t' <= c <= '\r' || c == '\U{A0}' || c == '\U{FEFF}' || c == '\U{1680}'
    || '\U{2000}' <= c <= '\U{200A}' || c == '\U{2028}' || c == '\U{2029}' || c == '\U{202F}' || c == '\U{205F}' || c == '\U{3000}'
  }

  function TrimStart(s: string): string {
    if s != "" && IsSpace(s[0]) then TrimStart(s[1..]) else s
  }

  function TrimEnd(s: string): string {
    if s != "" && IsSpace(s[|s| - 1]) then TrimEnd(s[..|s| - 1]) else s
  }

  function Trim(s: string): string { TrimEnd(TrimStart(s)) }

  /** A trimmed text is what lies between two runs of white space. */
  lemma {:induction false} TrimStartSplits(s: string) returns (leading: string)
    ensures s == leading + TrimStart(s)
    ensures forall i :: 0 <= i < |leading| ==> IsSpace(leading[i])
    ensures TrimStart(s) != "" ==> !IsSpace(TrimStart(s)[0])
  {
    if s != "" && IsSpace(s[0]) {
      var rest := TrimStartSplits(s[1..]);
      leading := [s[0]] + rest;
    } else {
      leading := "";
    }
  }

  lemma {:induction false} TrimEndSplits(s: string) returns (trailing: string)
    ensures s == TrimEnd(s) + trailing
    ensures forall i :: 0 <= i < |trailing| ==> IsSpace(trailing[i])
    ensures TrimEnd(s) != "" ==> !IsSpace(TrimEnd(s)[|TrimEnd(s)| - 1])
  {
    if s != "" && IsSpace(s[|s| - 1]) {
      var rest := TrimEndSplits(s[..|s| - 1]);
      trailing := rest + [s[|s| - 1]];
    } else {
      trailing := "";
    }
  }

  lemma TrimSplits(s: string) returns (leading: string, trailing: string)
    ensures s == leading + Trim(s) + trailing
    ensures forall i :: 0 <= i < |leading| ==> IsSpace(leading[i])
    ensures forall i :: 0 <= i < |trailing| ==> IsSpace(trailing[i])
    ensures Trim(s) != "" ==> !IsSpace(Trim(s)[0]) && !IsSpace(Trim(s)[|Trim(s)| - 1])
  {
    leading := TrimStartSplits(s);
    trailing := TrimEndSplits(TrimStart(s));
  }

  lemma TrimIsIdempotent(s: string)
    ensures Trim(Trim(s)) == Trim(s)
  {
    var leading, trailing := TrimSplits(s);
  }

  /** The characters trimmed, by code point. */
  lemma SpaceCodes(c: char)
    ensures IsSpace(c) <==>
              var code := c as int;
              9 <= code <= 13 || code in {32, 160, 0x1680, 0x2028, 0x2029, 0x202F, 0x205F, 0x3000, 0xFEFF} || 0x2000 <= code <= 0x200A
  {
  }
}
