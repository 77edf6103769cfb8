/** Decimal rendering of the counters that event identifiers carry
    (`%d` and `%06d`), with the left inverse that makes it injective. */
module Decimal {

  function Digit(d: nat): char
    requires d < 10
  {
    ('0' as int + d) as char
  }

  function Digits(n: nat): string {
    if n < 10 then [Digit(n)] else Digits(n / 10) + [Digit(n % 10)]
  }

  /** Left-pads with zeros up to `width` characters. */
  function Pad(s: string, width: nat): string
    decreases width - |s|
  {
    if |s| >= width then s else Pad("0" + s, width)
  }

  function Value(s: string): int {
    if s == "" then 0 else 10 * Value(s[..|s| - 1]) + (s[|s| - 1] as int - '0' as int)
  }

  predicate IsDigits(s: string) {
    forall c :: c in s ==> '0' <= c <= '9'
  }

  lemma {:induction false} ValueOfDigits(n: nat)
    ensures Value(Digits(n)) == n
    ensures IsDigits(Digits(n))
  {
    if n >= 10 {
      ValueOfDigits(n / 10);
      var s := Digits(n);
      assert s[..|s| - 1] == Digits(n / 10);
    } else {
      assert [Digit(n)][..0] == "";
    }
  }

  lemma {:induction false} ValueOfLeadingZero(s: string)
    ensures Value("0" + s) == Value(s)
  {
    if s == "" {
      assert ("0" + s)[..0] == "";
    } else {
      ValueOfLeadingZero(s[..|s| - 1]);
      var t := "0" + s;
      assert t[..|t| - 1] == "0" + s[..|s| - 1];
    }
  }

  lemma {:induction false} ValueOfPad(s: string, width: nat)
    ensures Value(Pad(s, width)) == Value(s)
    ensures IsDigits(s) ==> IsDigits(Pad(s, width))
    decreases width - |s|
  {
    if |s| < width {
      ValueOfLeadingZero(s);
      ValueOfPad("0" + s, width);
    }
  }

  /** Two counters with the same padded rendering are equal. */
  lemma PaddedInjective(m: nat, n: nat, width: nat)
    requires Pad(Digits(m), width) == Pad(Digits(n), width)
    ensures m == n
  {
    ValueOfDigits(m);
    ValueOfDigits(n);
    ValueOfPad(Digits(m), width);
    ValueOfPad(Digits(n), width);
  }
}
