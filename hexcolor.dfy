/**
 * The integer part of `Color(hex:)`: the colour string is trimmed of
 * characters that are not ASCII letters or digits, its leading hex digits
 * are read as a number, and by the trimmed length the number is cut into
 * alpha, red, green and blue components.
 */
module HexColor {
  import opened Prelude
  import opened Numerics

  /** A letter or a digit of ASCII (`CharacterSet.alphanumerics`, restricted to ASCII). */
  predicate IsAlphanumeric(c: char) {
    ('0' <= c <= '9') || ('a' <= c <= 'z') || ('A' <= c <= 'Z')
  }

  predicate IsHexDigit(c: char) {
    ('0' <= c <= '9') || ('a' <= c <= 'f') || ('A' <= c <= 'F')
  }

  /** The value of one hex digit, either case. */
  function HexDigitValue(c: char): (v: nat)
    requires IsHexDigit(c)
    ensures v < 16
  {
    if '0' <= c <= '9' then c as int - '0' as int
    else if 'a' <= c <= 'f' then c as int - 'a' as int + 10
    else c as int - 'A' as int + 10
  }

  /** The upper-case hex digit of a value below 16. */
  function HexDigit(v: nat): (c: char)
    requires v < 16
    ensures IsHexDigit(c) && HexDigitValue(c) == v
  {
    if v < 10 then ('0' as int + v) as char else ('A' as int + v - 10) as char
  }

  function Pow16(n: nat): (p: nat)
    ensures p >= 1
  {
    if n == 0 then 1 else 16 * Pow16(n - 1)
  }

  /** The number a string of hex digits spells, most significant digit first. */
  function HexNumber(s: string): (v: nat)
    requires forall k :: 0 <= k < |s| ==> IsHexDigit(s[k])
    ensures v < Pow16(|s|)
  {
    if s == [] then 0
    else
      var init := s[..|s| - 1];
      var v := HexNumber(init);
      MulLeMono(16, v, Pow16(|init|) - 1);
      v * 16 + HexDigitValue(s[|s| - 1])
  }

  /** The hex digits of a concatenation: the first part's value shifted past the second's digits. */
  lemma {:induction false} HexNumberAppend(a: string, b: string)
    requires forall k :: 0 <= k < |a| ==> IsHexDigit(a[k])
    requires forall k :: 0 <= k < |b| ==> IsHexDigit(b[k])
    ensures HexNumber(a + b) == HexNumber(a) * Pow16(|b|) + HexNumber(b)
  {
    if b != [] {
      var b' := b[..|b| - 1];
      var ab' := a + b';
      assert (a + b)[..|a + b| - 1] == ab';
      assert (a + b)[|a + b| - 1] == b[|b| - 1];
      var d := HexDigitValue(b[|b| - 1]);
      assert HexNumber(a + b) == HexNumber(ab') * 16 + d;
      assert HexNumber(b) == HexNumber(b') * 16 + d;
      HexNumberAppend(a, b');
      ShiftDigit(HexNumber(a), Pow16(|b'|), HexNumber(b'), d);
      assert Pow16(|b|) == 16 * Pow16(|b'|);
    } else {
      assert a + b == a;
    }
  }

  /** Appending one digit to a number shifted past `p` digits. */
  lemma ShiftDigit(x: int, p: int, y: int, d: int)
    ensures (x * p + y) * 16 + d == x * (16 * p) + (y * 16 + d)
  {
  }

  /** How many hex digits the string begins with. */
  function HexPrefixLength(s: string): (n: nat)
    ensures n <= |s|
    ensures forall k :: 0 <= k < n ==> IsHexDigit(s[k])
    ensures n < |s| ==> !IsHexDigit(s[n])
  {
    FirstIndex(s, (c: char) => !IsHexDigit(c))
  }

  /** `Scanner.scanHexInt64`: the value of the leading hex digits, 0 when there are none. */
  function ScanHex(s: string): (v: nat)
    ensures v < Pow16(|s|)
  {
    var n := HexPrefixLength(s);
    var v := HexNumber(s[..n]);
    PowMono(n, |s|);
    v
  }

  lemma {:induction false} PowMono(m: nat, n: nat)
    requires m <= n
    ensures Pow16(m) <= Pow16(n)
  {
    if m < n {
      PowMono(m, n - 1);
    }
  }

  /** A string made only of hex digits is read whole. */
  lemma ScanHexAllDigits(s: string)
    requires forall k :: 0 <= k < |s| ==> IsHexDigit(s[k])
    ensures ScanHex(s) == HexNumber(s)
  {
    assert s[..HexPrefixLength(s)] == s;
  }

  /** A colour's four components. */
  datatype Argb = Argb(a: int, r: int, g: int, b: int)

  predicate InByteRange(c: Argb) {
    0 <= c.a < 256 && 0 <= c.r < 256 && 0 <= c.g < 256 && 0 <= c.b < 256
  }

  /** The components by the digit count: 12-bit RGB, 24-bit RGB, 32-bit ARGB, else (1, 1, 1, 0). */
  function Components(count: nat, v: nat): Argb {
    if count == 3 then Argb(255, (v / 0x100) * 17, ((v / 0x10) % 0x10) * 17, (v % 0x10) * 17)
    else if count == 6 then Argb(255, v / 0x10000, (v / 0x100) % 0x100, v % 0x100)
    else if count == 8 then Argb(v / 0x1000000, (v / 0x10000) % 0x100, (v / 0x100) % 0x100, v % 0x100)
    else Argb(1, 1, 1, 0)
  }

  /** A number of at most `count` hex digits gives components of one byte each. */
  lemma ComponentsInRange(count: nat, v: nat)
    requires count == 3 ==> v < 0x1000
    requires count == 6 ==> v < 0x1000000
    requires count == 8 ==> v < 0x100000000
    ensures InByteRange(Components(count, v))
  {
  }

  /** `Color(hex:)`, up to the division by 255. */
  function ColorFromHex(hex: string): (c: Argb)
    ensures InByteRange(c)
  {
    var s := Trim(hex, (c: char) => !IsAlphanumeric(c));
    var v := ScanHex(s);
    assert Pow16(3) == 0x1000 && Pow16(6) == 0x1000000 && Pow16(8) == 0x100000000;
    ComponentsInRange(|s|, v);
    Components(|s|, v)
  }

  /** The 12-bit case spreads three 4-bit digits over the three colour components. */
  lemma ComponentsThree(v: nat, x: nat, y: nat, z: nat)
    requires x < 16 && y < 16 && z < 16 && v == (x * 16 + y) * 16 + z
    ensures Components(3, v) == Argb(255, x * 17, y * 17, z * 17)
  {
    assert v == x * 0x100 + (y * 16 + z);
    DivModUnique(v, 0x100, x, y * 16 + z);
    DivModUnique(v, 0x10, x * 16 + y, z);
    DivModUnique(x * 16 + y, 0x10, x, y);
  }

  /** Hex digits, after any run of characters that are not letters or digits, are read whole and cut by their count. */
  lemma ColorOfDigits(before: string, s: string)
    requires forall k :: 0 <= k < |before| ==> !IsAlphanumeric(before[k])
    requires s != [] && forall k :: 0 <= k < |s| ==> IsHexDigit(s[k])
    ensures ColorFromHex(before + s) == Components(|s|, HexNumber(s))
  {
    TrimAround(before, s);
    ScanHexAllDigits(s);
  }

  /** The number three hex digits spell. */
  lemma ThreeDigitNumber(x: char, y: char, z: char)
    requires IsHexDigit(x) && IsHexDigit(y) && IsHexDigit(z)
    ensures HexNumber([x, y, z]) == (HexDigitValue(x) * 16 + HexDigitValue(y)) * 16 + HexDigitValue(z)
  {
    assert [x, y, z][..2] == [x, y] && [x, y][..1] == [x] && [x][..0] == [];
    assert HexNumber([x]) == HexDigitValue(x);
  }

  /** Three digits: alpha 255, and each digit, times 17, is one component. */
  lemma ThreeDigits(x: char, y: char, z: char)
    requires IsHexDigit(x) && IsHexDigit(y) && IsHexDigit(z)
    ensures ColorFromHex([x, y, z]) == Argb(255, HexDigitValue(x) * 17, HexDigitValue(y) * 17, HexDigitValue(z) * 17)
  {
    var s := [x, y, z];
    ColorOfDigits([], s);
    assert [] + s == s;
    ThreeDigitNumber(x, y, z);
    ComponentsThree(HexNumber(s), HexDigitValue(x), HexDigitValue(y), HexDigitValue(z));
  }

  /** Division by a positive `d` is pinned down by a quotient and a remainder in range. */
  lemma DivModUnique(v: int, d: int, q: int, r: int)
    requires d > 0 && 0 <= r < d && v == q * d + r
    ensures v / d == q && v % d == r
  {
    var q', r' := v / d, v % d;
    assert v == q' * d + r';
    if q < q' {
      MulLeMono(d, q + 1, q');
      assert false;
    } else if q' < q {
      MulLeMono(d, q' + 1, q);
      assert false;
    }
  }

  /** The two upper-case hex digits of a byte. */
  function HexByte(x: nat): (s: string)
    requires x < 256
    ensures |s| == 2 && forall k :: 0 <= k < 2 ==> IsHexDigit(s[k])
    ensures HexNumber(s) == x
  {
    var s := [HexDigit(x / 16), HexDigit(x % 16)];
    assert s[..1] == [HexDigit(x / 16)];
    s
  }

  /** `#RRGGBB`, in upper case. */
  function RgbHex(r: nat, g: nat, b: nat): string
    requires r < 256 && g < 256 && b < 256
  {
    "#" + HexByte(r) + HexByte(g) + HexByte(b)
  }

  /** `#AARRGGBB`, in upper case. */
  function ArgbHex(a: nat, r: nat, g: nat, b: nat): string
    requires a < 256 && r < 256 && g < 256 && b < 256
  {
    "#" + HexByte(a) + HexByte(r) + HexByte(g) + HexByte(b)
  }

  /** Stripping what is not a letter or digit around a string that begins and ends with one leaves it. */
  lemma TrimAround(before: string, s: string)
    requires forall k :: 0 <= k < |before| ==> !IsAlphanumeric(before[k])
    requires s != [] && IsAlphanumeric(s[0]) && IsAlphanumeric(s[|s| - 1])
    ensures Trim(before + s, (c: char) => !IsAlphanumeric(c)) == s
  {
    TrimPadded(before, s, [], (c: char) => !IsAlphanumeric(c));
    assert before + s + [] == before + s;
  }

  /** The 24-bit case reads the three bytes of the number as red, green and blue. */
  lemma ComponentsSix(v: nat, r: nat, g: nat, b: nat)
    requires r < 256 && g < 256 && b < 256 && v == (r * 0x100 + g) * 0x100 + b
    ensures Components(6, v) == Argb(255, r, g, b)
  {
    DivModUnique(v, 0x10000, r, g * 0x100 + b);
    DivModUnique(v, 0x100, r * 0x100 + g, b);
    DivModUnique(r * 0x100 + g, 0x100, r, g);
  }

  /** The 32-bit case reads the four bytes of the number as alpha, red, green and blue. */
  lemma ComponentsEight(v: nat, a: nat, r: nat, g: nat, b: nat)
    requires a < 256 && r < 256 && g < 256 && b < 256 && v == (a * 0x100 + r) * 0x10000 + (g * 0x100 + b)
    ensures Components(8, v) == Argb(a, r, g, b)
  {
    DivModUnique(v, 0x1000000, a, r * 0x10000 + g * 0x100 + b);
    DivModUnique(v, 0x10000, a * 0x100 + r, g * 0x100 + b);
    DivModUnique(a * 0x100 + r, 0x100, a, r);
    DivModUnique(v, 0x100, a * 0x10000 + r * 0x100 + g, b);
    DivModUnique(a * 0x10000 + r * 0x100 + g, 0x100, a * 0x100 + r, g);
  }

  /** Bytes written as hex digits, one after the other, spell the number with those bytes. */
  lemma HexBytesValue(x: nat, y: nat)
    requires x < 256 && y < 256
    ensures HexNumber(HexByte(x) + HexByte(y)) == x * 0x100 + y
  {
    HexNumberAppend(HexByte(x), HexByte(y));
    assert Pow16(2) == 0x100;
  }

  /** The number six digits written from three bytes spell. */
  lemma RgbNumber(r: nat, g: nat, b: nat)
    requires r < 256 && g < 256 && b < 256
    ensures HexNumber(HexByte(r) + HexByte(g) + HexByte(b)) == (r * 0x100 + g) * 0x100 + b
  {
    HexBytesValue(r, g);
    HexNumberAppend(HexByte(r) + HexByte(g), HexByte(b));
    assert Pow16(2) == 0x100;
  }

  /** The number eight digits written from four bytes spell. */
  lemma ArgbNumber(a: nat, r: nat, g: nat, b: nat)
    requires a < 256 && r < 256 && g < 256 && b < 256
    ensures HexNumber((HexByte(a) + HexByte(r)) + (HexByte(g) + HexByte(b))) == (a * 0x100 + r) * 0x10000 + (g * 0x100 + b)
  {
    HexBytesValue(a, r);
    HexBytesValue(g, b);
    HexNumberAppend(HexByte(a) + HexByte(r), HexByte(g) + HexByte(b));
    assert Pow16(4) == 0x10000;
  }

  /** Six digits read back the red, green and blue bytes they were written from, with alpha 255. */
  lemma RgbRoundTrip(r: nat, g: nat, b: nat)
    requires r < 256 && g < 256 && b < 256
    ensures ColorFromHex(RgbHex(r, g, b)) == Argb(255, r, g, b)
  {
    var s := HexByte(r) + HexByte(g) + HexByte(b);
    assert RgbHex(r, g, b) == "#" + s;
    ColorOfDigits("#", s);
    RgbNumber(r, g, b);
    ComponentsSix(HexNumber(s), r, g, b);
  }

  /** Eight digits read back the alpha, red, green and blue bytes they were written from. */
  lemma ArgbRoundTrip(a: nat, r: nat, g: nat, b: nat)
    requires a < 256 && r < 256 && g < 256 && b < 256
    ensures ColorFromHex(ArgbHex(a, r, g, b)) == Argb(a, r, g, b)
  {
    var s := (HexByte(a) + HexByte(r)) + (HexByte(g) + HexByte(b));
    assert ArgbHex(a, r, g, b) == "#" + s;
    ColorOfDigits("#", s);
    ArgbNumber(a, r, g, b);
    ComponentsEight(HexNumber(s), a, r, g, b);
  }

  /** A leading "#" (or any run of characters that are not letters or digits) changes nothing. */
  lemma HashIgnored(before: string, s: string)
    requires forall k :: 0 <= k < |before| ==> !IsAlphanumeric(before[k])
    requires s != [] && IsAlphanumeric(s[0]) && IsAlphanumeric(s[|s| - 1])
    ensures ColorFromHex(before + s) == ColorFromHex(s)
  {
    TrimAround(before, s);
    TrimAround([], s);
    assert [] + s == s;
  }

  /** A trimmed length other than 3, 6 or 8 gives the fallback (1, 1, 1, 0). */
  lemma OtherLengthFallback(hex: string)
    requires var n := |Trim(hex, (c: char) => !IsAlphanumeric(c))|; n != 3 && n != 6 && n != 8
    ensures ColorFromHex(hex) == Argb(1, 1, 1, 0)
  {
  }
}
