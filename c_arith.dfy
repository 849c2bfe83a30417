/** The pieces of C and C++ integer semantics that the generated code and the
    generator rely on: division that truncates toward zero, and the decimal
    text `std::ostream` writes for an `int`. */
module CArith {

  function Abs(n: int): (r: nat)
    ensures r == n || r == -n
  {
    if n < 0 then -n else n
  }

  /** Euclid's quotient on naturals brackets the dividend between two multiples
      of the divisor. */
  lemma NatDivBounds(a: nat, b: nat)
    requires b > 0
    ensures (a / b) * b <= a < (a / b + 1) * b
  {
    var m := a / b;
    assert a == m * b + a % b;
    assert (m + 1) * b == m * b + b;
  }

  /** On naturals, a quotient bracketed like that is unique. */
  lemma BracketUnique(a: nat, b: nat, m: nat, m': nat)
    requires b > 0
    requires m * b <= a < (m + 1) * b
    requires m' * b <= a < (m' + 1) * b
    ensures m == m'
  {
    if m < m' {
      MulMonotone(m + 1, m', b);
    } else if m' < m {
      MulMonotone(m' + 1, m, b);
    }
  }

  lemma MulMonotone(x: nat, y: nat, b: nat)
    requires x <= y
    ensures x * b <= y * b
  {
    assert y * b == x * b + (y - x) * b;
  }

  /** C's `/` on integers: the quotient truncated toward zero (C99 6.5.5).
      Dafny's own `/` is Euclidean and differs whenever the dividend is negative
      and the division is inexact. */
  function TruncDiv(n: int, d: int): (q: int)
    requires d != 0
    ensures IsTruncatedQuotient(n, d, q)
  {
    var a, b := Abs(n), Abs(d);
    var mag := a / b;
    NatDivBounds(a, b);
    var q := if (n < 0) == (d < 0) then mag else -mag;
    assert Abs(q) == mag;
    q
  }

  /** What C99 6.5.5 asks of `n / d`: the exact quotient with its fractional part
      discarded, i.e. the magnitude is the largest multiple of |d| not above |n|
      and a non-zero quotient is positive exactly when the operands agree in sign. */
  predicate IsTruncatedQuotient(n: int, d: int, q: int)
    requires d != 0
  {
    Abs(q) * Abs(d) <= Abs(n) < (Abs(q) + 1) * Abs(d)
    && (q == 0 || ((q > 0) <==> ((n < 0) == (d < 0))))
  }

  /** TruncDiv is the only quotient meeting that description. */
  lemma TruncDivUnique(n: int, d: int, q: int)
    requires d != 0 && IsTruncatedQuotient(n, d, q)
    ensures q == TruncDiv(n, d)
  {
    var t := TruncDiv(n, d);
    BracketUnique(Abs(n), Abs(d), Abs(q), Abs(t));
  }

  /** Truncation is symmetric about zero, unlike floor or Euclidean division. */
  lemma TruncDivNegate(n: int, d: int)
    requires d != 0
    ensures TruncDiv(-n, d) == -TruncDiv(n, d)
  {
  }

  /** A dividend smaller in magnitude than the divisor truncates to zero, even when
      it is negative: -143 / 144 is 0 in C, while the Euclidean quotient is -1. */
  lemma TruncDivSmallDividend(n: int, d: int)
    requires d != 0 && Abs(n) < Abs(d)
    ensures TruncDiv(n, d) == 0
  {
  }

  lemma TruncDivExample()
    ensures TruncDiv(-143, 144) == 0 && -143 / 144 == -1
  {
    TruncDivSmallDividend(-143, 144);
  }

  predicate IsDigit(c: char) {
    '0' <= c <= '9'
  }

  predicate AllDigits(s: string) {
    forall i :: 0 <= i < |s| ==> IsDigit(s[i])
  }

  function DigitChar(d: nat): (c: char)
    requires d < 10
    ensures IsDigit(c) && c as int - '0' as int == d
  {
    ('0' as int + d) as char
  }

  /** The decimal digits of a natural number, most significant first, with no
      leading zeros. */
  function NatText(n: nat): (s: string)
    ensures |s| >= 1 && AllDigits(s)
    ensures n > 0 ==> s[0] != '0'
    decreases n
  {
    if n < 10 then [DigitChar(n)] else NatText(n / 10) + [DigitChar(n % 10)]
  }

  /** The text `dst << n` writes for an `int` n: a minus sign for negatives, then the
      digits. */
  function DecimalText(n: int): (s: string)
    ensures |s| >= 1
    ensures (s[0] == '-') <==> n < 0
    ensures n < 0 ==> |s| >= 2
    ensures n != 0 ==> s[if n < 0 then 1 else 0] != '0'
  {
    if n < 0 then "-" + NatText(-n) else NatText(n)
  }

  function ParseNat(s: string): nat
    requires AllDigits(s)
  {
    if s == [] then 0 else ParseNat(s[..|s| - 1]) * 10 + (s[|s| - 1] as int - '0' as int)
  }

  /** Reads back the text DecimalText writes. */
  function ParseDecimal(s: string): (n: int)
    requires |s| >= 1 && (if s[0] == '-' then AllDigits(s[1..]) else AllDigits(s))
  {
    if s[0] == '-' then 0 - ParseNat(s[1..]) else ParseNat(s)
  }

  lemma {:induction false} ParseNatText(n: nat)
    ensures ParseNat(NatText(n)) == n
    decreases n
  {
    if n >= 10 {
      var prefix := NatText(n / 10);
      var s := NatText(n);
      assert s == prefix + [DigitChar(n % 10)];
      assert s[..|s| - 1] == prefix;
      ParseNatText(n / 10);
    }
  }

  /** The divisor the generator prints is read back as the same number. */
  lemma DecimalRoundTrip(n: int)
    ensures var s := DecimalText(n);
      |s| >= 1 && (if s[0] == '-' then AllDigits(s[1..]) else AllDigits(s))
      && ParseDecimal(s) == n
  {
    var s := DecimalText(n);
    if n < 0 {
      assert s[1..] == NatText(-n);
      ParseNatText(-n);
    } else {
      ParseNatText(n);
    }
  }
}
