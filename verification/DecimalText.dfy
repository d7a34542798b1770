/** Decimal text as Rust's `{}` and `{:0width$}` print it, and how to read it back. */
module DecimalText {

  function DigitChar(n: nat): char
    requires n < 10
  {
    '0' + n as char
  }

  predicate IsDigit(c: char) { '0' <= c <= '9' }

  function DigitValue(c: char): nat
    requires IsDigit(c)
  {
    (c - '0') as nat
  }

  /** `{n:0width$}`: decimal, padded with zeros to at least `width`. */
  function Padded(n: nat, width: nat): (s: string)
    ensures |s| >= 1
    decreases n, width
  {
    if n < 10 && width <= 1 then [DigitChar(n)]
    else Padded(n / 10, if width == 0 then 0 else width - 1) + [DigitChar(n % 10)]
  }

  function DigitsValue(s: string): nat
    requires forall c | c in s :: IsDigit(c)
  {
    if s == [] then 0 else 10 * DigitsValue(s[..|s| - 1]) + DigitValue(s[|s| - 1])
  }

  predicate AllDigits(s: string) {
    s != [] && forall c | c in s :: IsDigit(c)
  }

  lemma {:induction false} PaddedLength(n: nat, width: nat, bound: nat)
    requires width >= 1
    requires bound == Power10(width)
    ensures n < bound <==> |Padded(n, width)| == width
    ensures |Padded(n, width)| >= width
  {
    if n < 10 && width == 1 {
    } else if width == 1 {
      assert Padded(n, 1) == Padded(n / 10, 0) + [DigitChar(n % 10)];
    } else {
      PaddedLength(n / 10, width - 1, Power10(width - 1));
    }
  }

  function Power10(k: nat): nat {
    if k == 0 then 1 else 10 * Power10(k - 1)
  }

  lemma {:induction false} PaddedReadsBack(n: nat, width: nat)
    ensures AllDigits(Padded(n, width))
    ensures DigitsValue(Padded(n, width)) == n
    decreases n, width
  {
    if n < 10 && width <= 1 {
    } else {
      var shorter := if width == 0 then 0 else width - 1;
      PaddedReadsBack(n / 10, shorter);
      var s := Padded(n, width);
      assert s[..|s| - 1] == Padded(n / 10, shorter);
    }
  }

  function Decimal(n: nat): string {
    Padded(n, 1)
  }
}
