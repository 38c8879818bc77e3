/**
 * One material's row on the home screen (`MaterialProgressView`): the
 * progress line and the amounts its two record buttons add.
 */
module ProgressRow {
  import opened Numerics
  import opened Models
  import opened Formatting

  /** The amounts of the two record buttons: 5 and 15 minutes for time units, 1 and 10 otherwise. */
  function RecordAmounts(isTime: bool): (r: seq<int>)
    ensures |r| == 2 && r[0] < r[1]
    ensures forall a :: a in r ==> a > 0
    ensures isTime ==> forall a :: a in r ==> a % 5 == 0
  {
    if isTime then [5, 15] else [1, 10]
  }

  /** `progressText`: "current / total", in hours and minutes for time units, else with the unit after. */
  function ProgressText(m: Material): string {
    if m.IsTimeUnit() then FormatMinutes(m.currentProgress) + " / " + FormatMinutes(m.totalAmount)
    else IntToString(m.currentProgress) + " / " + IntToString(m.totalAmount) + " " + m.unit
  }

  /** A number that is not negative is written in digits only, so holds no '/'. */
  lemma NoSlashInNumber(n: nat)
    ensures '/' !in NatToString(n)
  {
    assert forall k :: 0 <= k < |NatToString(n)| ==> IsDigit(NatToString(n)[k]);
  }

  /** A formatted minute count that is not negative holds digits and the unit words only, no '/'. */
  lemma NoSlashInMinutes(n: nat)
    ensures '/' !in FormatMinutes(n)
  {
    TruncDivRem(n, 60);
    NoSlashInNumber(Hours(n));
    NoSlashInNumber(Minutes(n));
  }

  /** A line "x / y" with no '/' in either `x` or `x'` splits in only one way. */
  lemma SplitAtSlash(x: string, y: string, x': string, y': string)
    requires '/' !in x && '/' !in x'
    requires x + " / " + y == x' + " / " + y'
    ensures x == x' && y == y'
  {
    var s := x + " / " + y;
    var s' := x' + " / " + y';
    assert s[|x| + 1] == '/' && s'[|x'| + 1] == '/';
    assert forall k :: 0 <= k <= |x| ==> s[k] != '/';
    assert forall k :: 0 <= k <= |x'| ==> s'[k] != '/';
    assert x == s[..|x|] && x' == s'[..|x'|];
    assert y == s[|x| + 3..] && y' == s'[|x'| + 3..];
  }

  /** The progress line of a time unit loses nothing: the same line means the same progress and total. */
  lemma TimeProgressReadsBack(c1: nat, t1: nat, c2: nat, t2: nat)
    requires FormatMinutes(c1) + " / " + FormatMinutes(t1) == FormatMinutes(c2) + " / " + FormatMinutes(t2)
    ensures c1 == c2 && t1 == t2
  {
    NoSlashInMinutes(c1);
    NoSlashInMinutes(c2);
    SplitAtSlash(FormatMinutes(c1), FormatMinutes(t1), FormatMinutes(c2), FormatMinutes(t2));
    FormatMinutesInjective(c1, c2);
    FormatMinutesInjective(t1, t2);
  }

  /** The progress line of a counted unit loses nothing, unless the unit itself begins with a digit. */
  lemma CountProgressReadsBack(c1: nat, t1: nat, c2: nat, t2: nat, unit: string)
    requires unit == [] || !IsDigit(unit[0])
    requires NatToString(c1) + " / " + (NatToString(t1) + (" " + unit))
          == NatToString(c2) + " / " + (NatToString(t2) + (" " + unit))
    ensures c1 == c2 && t1 == t2
  {
    NoSlashInNumber(c1);
    NoSlashInNumber(c2);
    SplitAtSlash(NatToString(c1), NatToString(t1) + (" " + unit), NatToString(c2), NatToString(t2) + (" " + unit));
    NatToStringInjective(c1, c2);
    NumberThenText(t1, " " + unit, t2, " " + unit);
  }

  /**
   * The progress line loses nothing: two materials of the same unit with
   * amounts that are not negative and the same line have the same progress
   * and the same total.
   */
  lemma ProgressTextReadsBack(m1: Material, m2: Material)
    requires m1.unit == m2.unit && (m1.unit == [] || !IsDigit(m1.unit[0]))
    requires m1.currentProgress >= 0 && m1.totalAmount >= 0 && m2.currentProgress >= 0 && m2.totalAmount >= 0
    requires ProgressText(m1) == ProgressText(m2)
    ensures m1.currentProgress == m2.currentProgress && m1.totalAmount == m2.totalAmount
  {
    if m1.IsTimeUnit() {
      TimeProgressReadsBack(m1.currentProgress, m1.totalAmount, m2.currentProgress, m2.totalAmount);
    } else {
      var a1, b1, a2, b2 := NatToString(m1.currentProgress), NatToString(m1.totalAmount),
                            NatToString(m2.currentProgress), NatToString(m2.totalAmount);
      assert ProgressText(m1) == a1 + " / " + b1 + " " + m1.unit;
      assert a1 + " / " + b1 + " " + m1.unit == a1 + " / " + (b1 + (" " + m1.unit));
      assert a2 + " / " + b2 + " " + m1.unit == a2 + " / " + (b2 + (" " + m1.unit));
      CountProgressReadsBack(m1.currentProgress, m1.totalAmount, m2.currentProgress, m2.totalAmount, m1.unit);
    }
  }
}
