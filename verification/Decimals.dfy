/** Decimal numbers as text: Go's strconv.Atoi on digits and the %0*d format. */
module Decimals {

  const MaxInt := 0x7fff_ffff_ffff_ffff

  predicate IsDigit(c: char) {
    '0' <= c <= '9'
  }

  predicate Digits(s: string) {
    forall c :: c in s ==> IsDigit(c)
  }

  function DigitChar(d: nat): char
    requires d < 10
  {
    '0' + d as char
  }

  function DigitValue(c: char): nat
    requires IsDigit(c)
  {
    (c - '0') as nat
  }

  function Value(s: string): nat
    requires Digits(s)
  {
    if s == "" then 0 else Value(s[..|s| - 1]) * 10 + DigitValue(s[|s| - 1])
  }

  /** Atoi keeps the largest integer when the digits say more; the caller drops the error. */
  function Atoi(s: string): (n: nat)
    requires Digits(s)
    ensures n <= MaxInt
  {
    if Value(s) > MaxInt then MaxInt else Value(s)
  }

  /** Adding one to the largest integer wraps around. */
  function Succ(n: nat): int {
    if n >= MaxInt then -MaxInt - 1 else n + 1
  }

  function Decimal(n: nat): string {
    if n < 10 then [DigitChar(n)] else Decimal(n / 10) + [DigitChar(n % 10)]
  }

  function Zeros(k: nat): string {
    seq(k, _ => '0')
  }

  function Pad(width: nat, n: nat): string {
    var d := Decimal(n);
    (if |d| < width then Zeros(width - |d|) else "") + d
  }

  /** %0*d: zeros up to the width, the sign included in it. */
  function Padded(width: nat, n: int): string {
    if n < 0 then "-" + Pad(if width == 0 then 0 else width - 1, -n) else Pad(width, n)
  }

  function Pow10(k: nat): nat {
    if k == 0 then 1 else 10 * Pow10(k - 1)
  }

  lemma {:induction false} DecimalValue(n: nat)
    ensures Digits(Decimal(n)) && Decimal(n) != "" && Value(Decimal(n)) == n
  {
    if n >= 10 {
      DecimalValue(n / 10);
      var d := Decimal(n);
      assert d[..|d| - 1] == Decimal(n / 10);
    } else {
      assert Decimal(n)[..0] == "";
    }
  }

  /** A number has at most k digits exactly when it is below ten to the k. */
  lemma {:induction false} DecimalLength(n: nat, k: nat)
    requires k > 0
    ensures |Decimal(n)| <= k <==> n < Pow10(k)
  {
    if k == 1 {
      assert Pow10(1) == 10 by { assert Pow10(0) == 1; }
      if n >= 10 {
        DecimalValue(n / 10);
      }
    } else if n >= 10 {
      DecimalLength(n / 10, k - 1);
    } else {
      Pow10Grows(k);
    }
  }

  lemma {:induction false} Pow10Grows(k: nat)
    requires k > 0
    ensures Pow10(k) >= 10
  {
    if k > 1 {
      Pow10Grows(k - 1);
    } else {
      assert Pow10(0) == 1;
    }
  }

  lemma {:induction false} ValueOfZeros(k: nat, d: string)
    requires Digits(d)
    ensures Digits(Zeros(k) + d) && Value(Zeros(k) + d) == Value(d)
  {
    var s := Zeros(k) + d;
    assert Digits(s);
    if d != "" {
      ValueOfZeros(k, d[..|d| - 1]);
      assert s[..|s| - 1] == Zeros(k) + d[..|d| - 1];
    } else if k > 0 {
      ValueOfZeros(k - 1, "");
      assert s[..|s| - 1] == Zeros(k - 1) + "";
    }
  }

  /** A padded number reads back, and has the asked width exactly when it is below ten to the width. */
  lemma PadReadsBack(width: nat, n: nat)
    requires width > 0
    ensures Digits(Pad(width, n)) && Pad(width, n) != "" && Value(Pad(width, n)) == n
    ensures |Pad(width, n)| == width <==> n < Pow10(width)
  {
    DecimalValue(n);
    DecimalLength(n, width);
    if |Decimal(n)| < width {
      ValueOfZeros(width - |Decimal(n)|, Decimal(n));
    } else {
      assert "" + Decimal(n) == Decimal(n);
    }
  }

  lemma DecimalInjective(a: nat, b: nat)
    requires Decimal(a) == Decimal(b)
    ensures a == b
  {
    DecimalValue(a);
    DecimalValue(b);
  }
}
