/**
 * Decimal rendering of integers, as Python's `str(n)` and f-string
 * interpolation `f"{n}"` produce it: the digits without leading zeros,
 * preceded by `-` for a negative number.
 */
module Strings {

  function DigitChar(d: nat): (c: char)
    requires d < 10
    ensures '0' <= c <= '9'
  {
    "0123456789"[d]
  }

  predicate IsDigit(c: char) {
    '0' <= c <= '9'
  }

  /** The decimal digits of `n`, most significant first. */
  function Digits(n: nat): (s: string)
    ensures |s| >= 1
    ensures n >= 10 ==> |s| >= 2
    ensures forall i :: 0 <= i < |s| ==> IsDigit(s[i])
    decreases n
  {
    if n < 10 then [DigitChar(n)] else Digits(n / 10) + [DigitChar(n % 10)]
  }

  /** `str(n)` for a Python `int`. */
  function IntToString(n: int): (s: string)
    ensures |s| >= 1
    ensures forall i :: 0 <= i < |s| ==> IsDigit(s[i]) || (i == 0 && s[i] == '-')
  {
    if n < 0 then "-" + Digits(-n) else Digits(n)
  }

  lemma DigitCharInjective(a: nat, b: nat)
    requires a < 10 && b < 10
    ensures DigitChar(a) == DigitChar(b) ==> a == b
  {
  }

  /** Distinct naturals have distinct digit strings. */
  lemma {:induction false} DigitsInjective(n: nat, m: nat)
    ensures Digits(n) == Digits(m) ==> n == m
    decreases n
  {
    if Digits(n) == Digits(m) {
      if n < 10 && m < 10 {
        DigitCharInjective(n, m);
      } else if n >= 10 && m >= 10 {
        var s := Digits(n);
        assert s == Digits(n / 10) + [DigitChar(n % 10)];
        assert s == Digits(m / 10) + [DigitChar(m % 10)];
        assert s[..|s| - 1] == Digits(n / 10) == Digits(m / 10);
        DigitsInjective(n / 10, m / 10);
        DigitCharInjective(n % 10, m % 10);
      }
    }
  }

  /** The rendering starts with `-` exactly for a negative number. */
  lemma SignChar(n: int)
    ensures (IntToString(n)[0] == '-') == (n < 0)
  {
    if n >= 0 {
      assert IsDigit(Digits(n)[0]);
    }
  }

  /** Equal renderings have the same sign. */
  lemma SameSign(n: int, m: int)
    requires IntToString(n) == IntToString(m)
    ensures (n < 0) == (m < 0)
  {
    SignChar(n);
    SignChar(m);
  }

  /** Equal renderings of negative numbers have equal magnitudes' digits. */
  lemma NegativeDigits(n: int, m: int)
    requires n < 0 && m < 0 && IntToString(n) == IntToString(m)
    ensures Digits(-n) == Digits(-m)
  {
    assert IntToString(n) == "-" + Digits(-n);
    assert IntToString(m) == "-" + Digits(-m);
    assert Digits(-n) == IntToString(n)[1..];
  }

  /** Negative numbers with the same magnitude digits are equal. */
  lemma MagnitudeInjective(n: int, m: int)
    requires n < 0 && m < 0 && Digits(-n) == Digits(-m)
    ensures n == m
  {
    DigitsInjective(-n, -m);
  }

  /** Distinct integers render differently, so an id in a key identifies the id. */
  lemma IntToStringInjective(n: int, m: int)
    ensures IntToString(n) == IntToString(m) ==> n == m
  {
    if IntToString(n) == IntToString(m) {
      SameSign(n, m);
      if n < 0 {
        NegativeDigits(n, m);
        MagnitudeInjective(n, m);
      } else {
        DigitsInjective(n, m);
      }
    }
  }

  /** A rendered integer never contains the `:` that separates the parts of a cache key. */
  lemma NoColon(n: int)
    ensures ':' !in IntToString(n)
  {
  }

  /**
   * If `a + ":"` begins `c + ":" + y` and neither `a` nor `c` holds a colon,
   * then the two leading fields are equal: the first colon ends both.
   */
  lemma {:induction false} ColonPrefix(a: string, c: string, y: string)
    requires ':' !in a && ':' !in c
    requires a + ":" <= c + ":" + y
    ensures a == c
  {
    var w := c + ":" + y;
    var k := if |a| < |c| then |a| else |c|;
    assert (a + ":")[k] == w[k];
    assert |a| == |c|;
    assert a == (a + ":")[..|a|] == w[..|c|] == c;
  }

  /** Splitting at the first colon recovers both halves. */
  lemma ColonSplit(a: string, x: string, c: string, y: string)
    requires ':' !in a && ':' !in c
    requires a + ":" + x == c + ":" + y
    ensures a == c && x == y
  {
    assert a + ":" <= a + ":" + x;
    ColonPrefix(a, c, y);
    assert x == (a + ":" + x)[|a| + 1..];
    assert y == (c + ":" + y)[|c| + 1..];
  }

  /** A string without a colon is not of the form `c + ":" + n`. */
  lemma ColonInside(a: string, c: string, n: string)
    requires ':' !in a
    ensures a != c + ":" + n
  {
  }

  /** After a common prefix, the first colon splits two equal strings at the same place. */
  lemma ColonSplitAfter(p: string, a: string, x: string, c: string, y: string)
    requires ':' !in a && ':' !in c
    requires p + a + ":" + x == p + c + ":" + y
    ensures a == c && x == y
  {
    assert (p + a + ":" + x)[|p|..] == a + ":" + x;
    assert (p + c + ":" + y)[|p|..] == c + ":" + y;
    ColonSplit(a, x, c, y);
  }

  /** After a common prefix, a colon-terminated field that begins another string is its first field. */
  lemma ColonPrefixAfter(p: string, a: string, c: string, y: string)
    requires ':' !in a && ':' !in c
    requires p + a + ":" <= p + c + ":" + y
    ensures a == c
  {
    assert (p + a + ":")[|p|..] == a + ":";
    assert (p + c + ":" + y)[|p|..] == c + ":" + y;
    ColonPrefix(a, c, y);
  }
}
