/**
 * Integer arithmetic the app relies on: Swift's truncating `/` and `%`,
 * the ceiling divisions that the quota code computes with `ceil` on
 * `Double`, and Swift's decimal rendering of an `Int` inside a string.
 */
module Numerics {
  import opened Prelude

  /** Swift's `a / b` on `Int` for `b > 0`: rounds toward zero. */
  function TruncDiv(a: int, b: int): int
    requires b > 0
  {
    if a >= 0 then a / b else -((-a) / b)
  }

  /** Swift's `a % b` on `Int` for `b > 0`: takes the sign of `a`. */
  function TruncRem(a: int, b: int): int
    requires b > 0
  {
    if a >= 0 then a % b else -((-a) % b)
  }

  /** Quotient and remainder recombine, and the remainder is below `b` in size with the sign of `a`. */
  lemma TruncDivRem(a: int, b: int)
    requires b > 0
    ensures b * TruncDiv(a, b) + TruncRem(a, b) == a
    ensures a >= 0 ==> 0 <= TruncRem(a, b) < b && TruncDiv(a, b) >= 0
    ensures a < 0 ==> -b < TruncRem(a, b) <= 0 && TruncDiv(a, b) <= 0
  {
    if a < 0 {
      var q, r := (-a) / b, (-a) % b;
      assert b * q + r == -a && 0 <= r < b;
      assert TruncDiv(a, b) == -q && TruncRem(a, b) == -r;
      assert b * (-q) == -(b * q);
      MulLtCancel(-1, q, b);
    } else {
      var q, r := a / b, a % b;
      assert b * q + r == a && 0 <= r < b;
      assert TruncDiv(a, b) == q && TruncRem(a, b) == r;
      MulLtCancel(-1, q, b);
    }
  }

  /**
   * `ceil(n / d)` for a positive divisor, computed exactly: the least `q`
   * with `q * d >= n`. Stands for `Int(ceil(Double(n) / Double(d)))`.
   */
  function CeilDiv(n: int, d: int): (q: int)
    requires d > 0
    ensures (q - 1) * d < n <= q * d
  {
    var q := (n + d - 1) / d;
    assert d * q + (n + d - 1) % d == n + d - 1;
    q
  }

  /** The two inequalities of `CeilDiv` pin its value down. */
  lemma {:induction false} CeilDivUnique(n: int, d: int, q: int)
    requires d > 0
    requires (q - 1) * d < n <= q * d
    ensures q == CeilDiv(n, d)
  {
    var c := CeilDiv(n, d);
    MulLtCancel(q - 1, c, d);
    MulLtCancel(c - 1, q, d);
  }

  /** Cancelling a positive factor from a strict inequality. */
  lemma MulLtCancel(x: int, y: int, d: int)
    requires d > 0 && x * d < y * d
    ensures x < y
  {
    assert (y - x) * d == y * d - x * d;
  }

  /** Multiplying by a non-negative factor keeps an inequality. */
  lemma MulLeMono(x: int, a: int, b: int)
    requires x >= 0 && a <= b
    ensures x * a <= x * b
  {
    assert x * b - x * a == x * (b - a);
  }

  /** For a non-negative amount spread over at least one day, the share lies in `0..n`. */
  lemma {:induction false} CeilDivBounds(n: int, d: int)
    requires n >= 0 && d > 0
    ensures 0 <= CeilDiv(n, d) <= n
    ensures n > 0 ==> CeilDiv(n, d) >= 1
  {
    var q := CeilDiv(n, d);
    MulLeMono(n, 1, d);
    MulLtCancel(q - 1, n, d);
    assert (-1) * d < 0;
    MulLtCancel(-1, q, d);
    if n > 0 {
      assert 0 * d < n;
      MulLtCancel(0, q, d);
    }
  }

  /** A larger divisor never gives a larger share of a non-negative amount. */
  lemma {:induction false} CeilDivAntitone(n: int, d1: int, d2: int)
    requires n >= 0 && 0 < d1 <= d2
    ensures CeilDiv(n, d2) <= CeilDiv(n, d1)
  {
    var q1, q2 := CeilDiv(n, d1), CeilDiv(n, d2);
    CeilDivBounds(n, d1);
    MulLeMono(q1, d1, d2);
    assert (q2 - 1) * d2 < n <= q1 * d2;
    MulLtCancel(q2 - 1, q1, d2);
  }

  /** Scaling amount and divisor by the same positive factor leaves the share unchanged. */
  lemma {:induction false} CeilDivScale(n: int, d: int, k: int)
    requires d > 0 && k > 0
    ensures CeilDiv(k * n, k * d) == CeilDiv(n, d)
  {
    var q := CeilDiv(n, d);
    assert (q - 1) * (k * d) == k * ((q - 1) * d);
    assert q * (k * d) == k * (q * d);
    assert k * ((q - 1) * d) < k * n by {
      assert k * n - k * ((q - 1) * d) == k * (n - (q - 1) * d);
    }
    assert k * n <= k * (q * d) by {
      assert k * (q * d) - k * n == k * (q * d - n);
    }
    CeilDivUnique(k * n, k * d, q);
  }

  // ---------------------------------------------------------------
  // Decimal rendering, as Swift's string interpolation `"\(n)"` does it.
  // ---------------------------------------------------------------

  predicate IsDigit(c: char) {
    '0' <= c <= '9'
  }

  function DigitChar(d: nat): (c: char)
    requires d < 10
    ensures IsDigit(c) && c as int - '0' as int == d
  {
    ('0' as int + d) as char
  }

  /** The decimal digits of `n`, most significant first, without leading zeros. */
  function NatToString(n: nat): (s: string)
    ensures |s| >= 1
    ensures forall i :: 0 <= i < |s| ==> IsDigit(s[i])
    ensures |s| > 1 ==> s[0] != '0'
  {
    if n < 10 then [DigitChar(n)] else NatToString(n / 10) + [DigitChar(n % 10)]
  }

  /** Swift's `"\(i)"`: a minus sign for negative values, then the digits. */
  function IntToString(i: int): string {
    if i < 0 then "-" + NatToString(-i) else NatToString(i)
  }

  /** Reads a string of decimal digits back as a number. */
  function ParseDecimal(s: string): nat
    requires forall i :: 0 <= i < |s| ==> IsDigit(s[i])
  {
    if s == [] then 0
    else
      assert IsDigit(s[|s| - 1]);
      ParseDecimal(s[..|s| - 1]) * 10 + (s[|s| - 1] as int - '0' as int)
  }

  /** Rendering then reading back gives the number: the rendering loses nothing. */
  lemma {:induction false} ParseNatToString(n: nat)
    ensures ParseDecimal(NatToString(n)) == n
  {
    if n >= 10 {
      var s := NatToString(n);
      ParseNatToString(n / 10);
      assert s[..|s| - 1] == NatToString(n / 10);
    }
  }

  /** Different numbers render differently. */
  lemma NatToStringInjective(a: nat, b: nat)
    requires NatToString(a) == NatToString(b)
    ensures a == b
  {
    ParseNatToString(a);
    ParseNatToString(b);
  }

  predicate AllDigits(s: string) {
    forall i :: 0 <= i < |s| ==> IsDigit(s[i])
  }

  /**
   * Swift's `Int(s)`: an optional `+` or `-` followed by one or more decimal
   * digits and nothing else; any other text, the empty one included, gives
   * `nil`.
   */
  function ParseInt(s: string): (r: Option<int>)
    ensures r.Some? ==> s != []
    ensures s != [] && AllDigits(s) ==> r == Some(ParseDecimal(s))
    ensures s != [] && !IsDigit(s[0]) && s[0] != '+' && s[0] != '-' ==> r == None
  {
    if s == [] then None
    else if s[0] == '+' || s[0] == '-' then
      var digits := s[1..];
      if digits != [] && AllDigits(digits) then
        var n: int := ParseDecimal(digits);
        Some(if s[0] == '-' then -n else n)
      else None
    else if AllDigits(s) then Some(ParseDecimal(s))
    else None
  }

  /** `Int(String(i))`: reading back the rendering of any integer gives it back. */
  lemma ParseIntToString(i: int)
    ensures ParseInt(IntToString(i)) == Some(i)
  {
    if i < 0 {
      var digits := NatToString(-i);
      var s := "-" + digits;
      assert s[0] == '-' && s[1..] == digits && AllDigits(digits);
      ParseNatToString(-i);
      assert ParseInt(s) == Some(0 - ParseDecimal(digits));
    } else {
      var s := NatToString(i);
      assert AllDigits(s);
      ParseNatToString(i);
    }
  }

  /** `Int(s) ?? fallback`. */
  function ParsedOr(s: string, fallback: int): int {
    ParseInt(s).GetOr(fallback)
  }
}
