/**
 * The minute formatter that every time-based screen repeats
 * (`formatMinutes`, and the same rule inside `formatAmount`,
 * `formatPreview` and `autoQuotaPreviewText`): a count of minutes shown as
 * "h時間m分", "h時間" or "m分", with Swift's truncating `/` and `%`.
 */
module Formatting {
  import opened Numerics

  /** `minutes / 60`. */
  function Hours(n: int): int {
    TruncDiv(n, 60)
  }

  /** `minutes % 60`. */
  function Minutes(n: int): int {
    TruncRem(n, 60)
  }

  /**
   * `formatMinutes`, by the size of the count: under an hour the minutes;
   * whole hours alone; otherwise both. A negative count loses its hours and
   * shows only its (negative) minutes.
   */
  function FormatMinutes(n: int): (s: string)
    ensures 0 <= n < 60 ==> s == NatToString(n) + "分"
    ensures n >= 60 && n % 60 == 0 ==> s == NatToString(n / 60) + "時間"
    ensures n >= 60 && n % 60 != 0 ==> s == NatToString(n / 60) + "時間" + NatToString(n % 60) + "分"
    ensures n < 0 ==> s == IntToString(-((-n) % 60)) + "分"
  {
    TruncDivRem(n, 60);
    assert n < 0 ==> Hours(n) <= 0;
    var h, m := Hours(n), Minutes(n);
    if h > 0 && m > 0 then IntToString(h) + "時間" + IntToString(m) + "分"
    else if h > 0 then IntToString(h) + "時間"
    else IntToString(m) + "分"
  }

  /** For a count that is not negative, the shown hours and minutes recombine to it. */
  lemma HoursMinutesRecombine(n: int)
    requires n >= 0
    ensures 60 * Hours(n) + Minutes(n) == n
    ensures Hours(n) >= 0 && 0 <= Minutes(n) < 60
  {
    TruncDivRem(n, 60);
  }

  /** The number a formatted count begins with, and the text after it. */
  function Parts(n: nat): (nat, string) {
    var h, m := Hours(n), Minutes(n);
    TruncDivRem(n, 60);
    if h > 0 && m > 0 then (h, "時間" + NatToString(m) + "分")
    else if h > 0 then (h, "時間")
    else (m, "分")
  }

  lemma FormatMinutesParts(n: nat)
    ensures FormatMinutes(n) == NatToString(Parts(n).0) + Parts(n).1
    ensures Parts(n).1 != [] && !IsDigit(Parts(n).1[0])
  {
    TruncDivRem(n, 60);
  }

  /** A number's digits followed by text that starts with a non-digit can be split in only one way. */
  lemma NumberThenText(x: nat, u: string, y: nat, v: string)
    requires u != [] && !IsDigit(u[0]) && v != [] && !IsDigit(v[0])
    requires NatToString(x) + u == NatToString(y) + v
    ensures x == y && u == v
  {
    var a, b := NatToString(x), NatToString(y);
    assert (a + u)[|a|] == u[0] && (b + v)[|b|] == v[0];
    assert forall k :: 0 <= k < |b| ==> IsDigit((b + v)[k]);
    assert forall k :: 0 <= k < |a| ==> IsDigit((a + u)[k]);
    assert a == (a + u)[..|a|] && b == (b + v)[..|b|];
    NatToStringInjective(x, y);
    assert u == (a + u)[|a|..] && v == (b + v)[|b|..];
  }

  /** The formatter loses nothing: different minute counts that are not negative look different. */
  lemma FormatMinutesInjective(a: nat, b: nat)
    requires FormatMinutes(a) == FormatMinutes(b)
    ensures a == b
  {
    HoursMinutesRecombine(a);
    HoursMinutesRecombine(b);
    FormatMinutesParts(a);
    FormatMinutesParts(b);
    NumberThenText(Parts(a).0, Parts(a).1, Parts(b).0, Parts(b).1);
    var rest := Parts(a).1;
    if Hours(a) > 0 && Minutes(a) > 0 {
      assert |rest| >= 4 && rest[|rest| - 1] == '分';
      assert Hours(b) > 0 && Minutes(b) > 0;
      assert rest[2..|rest| - 1] == NatToString(Minutes(a));
      assert Parts(b).1[2..|rest| - 1] == NatToString(Minutes(b));
      NatToStringInjective(Minutes(a), Minutes(b));
    } else if Hours(a) > 0 {
      assert rest == "時間";
      assert Hours(b) > 0 && Minutes(b) == 0;
    } else {
      assert rest == "分";
      assert Hours(b) == 0;
    }
  }
}
