/** Decimal text, as Python's str and format produce it. */
module Text {

  function Digit(d: nat): char
    requires d < 10
  {
    '0' + d as char
  }

  function Decimal(n: nat): (s: string)
    ensures |s| > 0
    ensures forall c :: c in s ==> '0' <= c <= '9'
  {
    if n < 10 then [Digit(n)] else Decimal(n / 10) + [Digit(n % 10)]
  }

  function SignedDecimal(n: int): (s: string)
    ensures |s| > 0 && (s[0] == '-' <==> n < 0)
    ensures ':' !in s
  {
    if n >= 0 then assert Decimal(n)[0] in Decimal(n); Decimal(n) else "-" + Decimal(-n)
  }

  /** Exactly width digits of n, padded with zeros on the left. */
  function Digits(n: nat, width: nat): (s: string)
    ensures |s| == width
    ensures forall c :: c in s ==> '0' <= c <= '9'
  {
    if width == 0 then [] else Digits(n / 10, width - 1) + [Digit(n % 10)]
  }

  lemma {:induction false} DecimalInjective(m: nat, n: nat)
    requires Decimal(m) == Decimal(n)
    ensures m == n
  {
    var s, t := Decimal(m), Decimal(n);
    assert s[|s| - 1] == Digit(m % 10) && t[|t| - 1] == Digit(n % 10);
    if m >= 10 && n >= 10 {
      assert s[..|s| - 1] == Decimal(m / 10) && t[..|t| - 1] == Decimal(n / 10);
      DecimalInjective(m / 10, n / 10);
    }
  }

  lemma {:induction false} SignedDecimalInjective(m: int, n: int)
    requires SignedDecimal(m) == SignedDecimal(n)
    ensures m == n
  {
    if m >= 0 && n >= 0 {
      DecimalInjective(m, n);
    } else if m < 0 && n < 0 {
      assert SignedDecimal(m)[1..] == Decimal(-m) && SignedDecimal(n)[1..] == Decimal(-n);
      DecimalInjective(-m, -n);
    }
  }

  lemma {:induction false} DigitsInjective(m: nat, n: nat, width: nat)
    requires Digits(m, width) == Digits(n, width)
    ensures m % Power10(width) == n % Power10(width)
  {
    if width > 0 {
      var s, t := Digits(m, width), Digits(n, width);
      assert s[width - 1] == Digit(m % 10) && t[width - 1] == Digit(n % 10);
      assert s[..width - 1] == Digits(m / 10, width - 1) && t[..width - 1] == Digits(n / 10, width - 1);
      DigitsInjective(m / 10, n / 10, width - 1);
      SplitLastDigit(m, Power10(width - 1));
      SplitLastDigit(n, Power10(width - 1));
    }
  }

  function Power10(k: nat): (p: nat)
    ensures p > 0
  {
    if k == 0 then 1 else 10 * Power10(k - 1)
  }

  lemma {:induction false} SplitLastDigit(n: nat, p: nat)
    requires p > 0
    ensures n % (10 * p) == 10 * ((n / 10) % p) + n % 10
  {
    var q, r := (n / 10) / p, (n / 10) % p;
    assert n / 10 == p * q + r;
    assert n == 10 * (p * q) + (10 * r + n % 10);
    var rest := 10 * r + n % 10;
    assert 0 <= rest < 10 * p;
    assert 10 * (p * q) == (10 * p) * q;
    ModOfSum(10 * p, q, rest);
  }

  lemma {:induction false} ModOfSum(d: nat, q: nat, r: nat)
    requires r < d
    ensures (d * q + r) % d == r
  {
    var n: int := d * q + r;
    assert n >= 0 by { assert d * q >= 0; }
    var q', r' := n / d, n % d;
    assert d * q' + r' == n;
    var k := q' - q;
    assert d * k == d * q' - d * q;
    MulSign(d, k);
  }

  lemma {:induction false} MulSign(d: nat, k: int)
    ensures k >= 1 ==> d * k >= d
    ensures k <= -1 ==> d * k + d <= 0
  {}
}
