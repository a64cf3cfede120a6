/** Decimal numerals, as string conversion writes them, and their reading. */
module Decimals {

  function Digit(d: nat): char
    requires d < 10
  {
    "0123456789"[d]
  }

  predicate IsDigit(c: char) { '0' <= c <= '9' }

  function Decimal(n: nat): (s: string)
    ensures s != ""
  {
    if n < 10 then [Digit(n)] else Decimal(n / 10) + [Digit(n % 10)]
  }

  /** Value of a numeral read from left to right after the digits worth `before`. */
  function ValueAfter(before: int, s: string): int
    decreases |s|
  {
    if s == "" then before else ValueAfter(before * 10 + s[0] as int - '0' as int, s[1..])
  }

  function Value(s: string): int { ValueAfter(0, s) }

  function PadTwo(s: string): string {
    if |s| >= 2 then s else if |s| == 1 then "0" + s else "00"
  }

  lemma {:induction false} ValueOfConcat(before: int, a: string, b: string)
    ensures ValueAfter(before, a + b) == ValueAfter(ValueAfter(before, a), b)
    decreases |a|
  {
    if a == "" {
      assert a + b == b;
    } else {
      assert (a + b)[1..] == a[1..] + b;
      ValueOfConcat(before * 10 + a[0] as int - '0' as int, a[1..], b);
    }
  }

  lemma ValueOfDigit(before: int, d: nat)
    requires d < 10
    ensures ValueAfter(before, [Digit(d)]) == before * 10 + d
    ensures IsDigit(Digit(d))
  {
    assert [Digit(d)][1..] == "";
  }

  lemma {:induction false} DecimalRoundTrip(n: nat)
    ensures Value(Decimal(n)) == n
    ensures forall i :: 0 <= i < |Decimal(n)| ==> IsDigit(Decimal(n)[i])
  {
    if n < 10 {
      ValueOfDigit(0, n);
    } else {
      DecimalRoundTrip(n / 10);
      ValueOfConcat(0, Decimal(n / 10), [Digit(n % 10)]);
      ValueOfDigit(n / 10, n % 10);
    }
  }

  lemma PadTwoRoundTrip(n: nat)
    ensures Value(PadTwo(Decimal(n))) == n && |PadTwo(Decimal(n))| >= 2
    ensures n < 100 ==> |PadTwo(Decimal(n))| == 2
  {
    var s := Decimal(n);
    DecimalRoundTrip(n);
    if |s| == 1 {
      ValueOfConcat(0, "0", s);
      ValueOfDigit(0, 0);
      assert "0" == [Digit(0)];
    }
    if 10 <= n < 100 {
      assert n / 10 < 10;
    }
  }
}
