/**
 * The two quota screens of the home tab: the list that shows each
 * material's daily quota (`QuotaSettingsView`), and the form that edits one
 * material's quota settings (`MaterialQuotaEditView`), with its preview of
 * the automatic quota and the save that writes the settings back onto the
 * stored material.
 */
module QuotaViews {
  import opened Prelude
  import opened Numerics
  import opened Calendar
  import opened Models
  import opened Persistence
  import opened Quota
  import opened Formatting

  // ---------------------------------------------------------------
  // The quota list
  // ---------------------------------------------------------------

  /** `formatAmount(_:unit:)`: a daily amount, in hours and minutes for time units, always ending "/日". */
  function FormatAmount(amount: int, unit: string): (s: string)
    ensures |s| >= 2 && s[|s| - 2..] == "/日"
  {
    if unit == HoursUnit then FormatMinutes(amount) + "/日" else IntToString(amount) + unit + "/日"
  }

  /** The hours preview is the listed amount without its "/日", after "約 ". */
  lemma HoursPreview(amount: int)
    ensures ("約 " + FormatMinutes(amount))[2..] + "/日" == FormatAmount(amount, HoursUnit)
  {
    var shown := FormatMinutes(amount);
    assert ("約 " + shown)[2..] == shown;
  }

  /** The counted preview is the listed amount with a spaced unit, without its "/日", after "約 ". */
  lemma CountedPreview(amount: int, unit: string)
    ensures ("約 " + (IntToString(amount) + " " + unit))[2..] + "/日" == FormatAmount(amount, " " + unit)
  {
    assert " " + unit != HoursUnit by {
      assert (" " + unit)[0] != HoursUnit[0];
    }
    assert FormatAmount(amount, " " + unit) == IntToString(amount) + (" " + unit) + "/日";
    SpacedUnit(IntToString(amount), unit);
  }

  /** Dropping the two-character "約 " from the spaced text leaves it as the amount text builds it. */
  lemma SpacedUnit(x: string, unit: string)
    ensures ("約 " + (x + " " + unit))[2..] + "/日" == x + (" " + unit) + "/日"
  {
    var shown := x + " " + unit;
    assert ("約 " + shown)[2..] == shown;
    assert shown == x + (" " + unit);
  }

  /** Two texts with the same ending are the same when what precedes it is. */
  lemma CancelSuffix(x: string, y: string, t: string)
    requires x + t == y + t
    ensures x == y
  {
    assert x == (x + t)[..|x|] && y == (y + t)[..|y|];
  }

  /** A counted amount that is not negative is its digits, then the unit and "/日". */
  lemma CountedAmount(a: nat, unit: string)
    requires unit != HoursUnit
    ensures FormatAmount(a, unit) == NatToString(a) + (unit + "/日")
  {
  }

  /**
   * Different daily amounts that are not negative are shown differently,
   * unless the unit itself begins with a digit.
   */
  lemma FormatAmountInjective(a: nat, b: nat, unit: string)
    requires unit == [] || !IsDigit(unit[0])
    requires FormatAmount(a, unit) == FormatAmount(b, unit)
    ensures a == b
  {
    if unit == HoursUnit {
      CancelSuffix(FormatMinutes(a), FormatMinutes(b), "/日");
      FormatMinutesInjective(a, b);
    } else {
      var rest := unit + "/日";
      assert rest[0] == if unit == [] then '/' else unit[0];
      CountedAmount(a, unit);
      CountedAmount(b, unit);
      NumberThenText(a, rest, b, rest);
    }
  }

  /**
   * `formatQuota`: the automatic quota for a material in auto mode, otherwise
   * its manual one. The list so shows the quota the home screen uses, except
   * for a manual material under a qualification whose legacy auto rule
   * applies: the list then still shows the manual quota.
   */
  function FormatQuota(m: Material, q: Option<Qualification>, today: Day): (s: string)
    ensures m.quotaMode == Auto || !LegacyApplies(q, today) ==>
      s == FormatAmount(CalculatedDailyQuota(m, q, today), m.unit)
    ensures m.quotaMode == Manual && LegacyApplies(q, today) ==> s == FormatAmount(m.dailyQuota, m.unit)
  {
    FormatAmount(if m.quotaMode == Auto then AutoQuota(m, q, today) else m.dailyQuota, m.unit)
  }

  // ---------------------------------------------------------------
  // The quota form
  // ---------------------------------------------------------------

  /** The weekly target the list hands to the form: `qualification?.weeklyTargetDays ?? 4`. */
  function EditorWeeklyTarget(q: Option<Qualification>): int {
    if q.Some? then q.value.weeklyTargetDays else 4
  }

  /**
   * The save button's effect on the stored material: the mode and the
   * weekly-target flag are stored; in manual mode the typed quota replaces
   * the old one when it reads as a number; the deadline is kept exactly when
   * the deadline toggle is on. Nothing else changes.
   */
  function WithQuotaSettings(m: Material, mode: QuotaMode, quotaText: string, hasDeadline: bool, deadline: Instant,
                             useWeeklyTarget: bool): (r: Material)
    ensures r.quotaMode == mode && r.useWeeklyTarget == useWeeklyTarget
    ensures mode == Manual && ParseInt(quotaText).Some? ==> r.dailyQuota == ParseInt(quotaText).value
    ensures mode == Auto || ParseInt(quotaText).None? ==> r.dailyQuota == m.dailyQuota
    ensures r.deadline.None? <==> !hasDeadline
    ensures hasDeadline ==> r.deadline == Some(deadline)
    ensures r.(quotaMode := m.quotaMode, dailyQuota := m.dailyQuota, deadline := m.deadline,
               useWeeklyTarget := m.useWeeklyTarget) == m
  {
    m.(quotaMode := mode,
       dailyQuota := if mode == Manual then ParsedOr(quotaText, m.dailyQuota) else m.dailyQuota,
       deadline := if hasDeadline then Some(deadline) else None,
       useWeeklyTarget := useWeeklyTarget)
  }

  /** The save button's update, as applied to each stored record. */
  function QuotaSaver(mode: QuotaMode, quotaText: string, hasDeadline: bool, deadline: Instant,
                      useWeeklyTarget: bool): Material -> Material
  {
    (m: Material) => WithQuotaSettings(m, mode, quotaText, hasDeadline, deadline, useWeeklyTarget)
  }

  /**
   * Saving the form exactly as it appears for a material writes the same
   * material back: the quota shown is the stored one, and the deadline
   * toggle is on exactly when the material has a deadline.
   */
  lemma UntouchedQuotaFormKeeps(m: Material, examDate: Option<Instant>, now: Instant)
    ensures WithQuotaSettings(m, m.quotaMode, IntToString(m.dailyQuota), m.deadline.Some?,
                              m.deadline.GetOr(examDate.GetOr(now)), m.useWeeklyTarget) == m
  {
    ParseIntToString(m.dailyQuota);
  }

  /**
   * The "remaining" line of the form: hours and minutes, the minutes shown
   * even when zero. For time units it differs from `formatMinutes` only on
   * whole hours, where it adds "0分".
   */
  function RemainingText(m: Material): (s: string)
    ensures m.unit == HoursUnit ==>
      var r := RemainingAmount(m);
      if r >= 60 && r % 60 == 0 then s == FormatMinutes(r) + "0分" else s == FormatMinutes(r)
    ensures m.unit != HoursUnit ==> s == IntToString(RemainingAmount(m)) + " " + m.unit
  {
    var r := RemainingAmount(m);
    HoursMinutesRecombine(r);
    assert r >= 60 ==> Hours(r) == r / 60 && Minutes(r) == r % 60;
    if m.unit == HoursUnit then
      if Hours(r) > 0 then IntToString(Hours(r)) + "時間" + IntToString(Minutes(r)) + "分"
      else IntToString(Minutes(r)) + "分"
    else IntToString(r) + " " + m.unit
  }

  /** The form of `MaterialQuotaEditView`: its state fields, over one stored material. */
  class QuotaEditForm {
    const store: Store
    const material: Material
    const examDate: Option<Instant>
    const weeklyTargetDays: int
    var quotaMode: QuotaMode
    var dailyQuota: string
    var hasDeadline: bool
    var deadline: Instant
    var useWeeklyTarget: bool

    /** The form before it appears: manual, empty quota, no deadline (picker on now), no weekly target. */
    constructor (store: Store, material: Material, examDate: Option<Instant>, weeklyTargetDays: int, now: Instant)
      ensures this.store == store && this.material == material
      ensures this.examDate == examDate && this.weeklyTargetDays == weeklyTargetDays
      ensures quotaMode == Manual && dailyQuota == "" && !hasDeadline && deadline == now && !useWeeklyTarget
    {
      this.store := store;
      this.material := material;
      this.examDate := examDate;
      this.weeklyTargetDays := weeklyTargetDays;
      quotaMode := Manual;
      dailyQuota := "";
      hasDeadline := false;
      deadline := now;
      useWeeklyTarget := false;
    }

    /**
     * `onAppear`: the fields take the material's settings; the deadline
     * toggle is on exactly when the material has a deadline, and the picker
     * shows its deadline, else the exam date, else today.
     */
    method Appear(now: Instant)
      modifies this`quotaMode, this`dailyQuota, this`hasDeadline, this`deadline, this`useWeeklyTarget
      ensures quotaMode == material.quotaMode && dailyQuota == IntToString(material.dailyQuota)
      ensures hasDeadline <==> material.deadline.Some?
      ensures deadline == material.deadline.GetOr(examDate.GetOr(now))
      ensures useWeeklyTarget == material.useWeeklyTarget
    {
      quotaMode := material.quotaMode;
      dailyQuota := IntToString(material.dailyQuota);
      hasDeadline := material.deadline.Some?;
      deadline := material.deadline.GetOr(examDate.GetOr(now));
      useWeeklyTarget := material.useWeeklyTarget;
    }

    /** The day the preview counts down to: the picked deadline, else the exam date, else today. */
    function PreviewDeadline(now: Instant): Instant
      reads this
    {
      if hasDeadline then deadline else examDate.GetOr(now)
    }

    /** `autoQuotaPreview`: the automatic quota with at least one day left, never above the remainder. */
    function AutoQuotaPreview(now: Instant): (r: int)
      reads this
      ensures 0 <= r <= RemainingAmount(material)
    {
      PreviewQuota(RemainingAmount(material), DaysLeft(PreviewDeadline(now), StartOfDay(now)),
                   useWeeklyTarget, weeklyTargetDays)
    }

    /**
     * `formatPreview`: "約 " and the amount as the quota list would show it
     * without its "/日", with a space before a counted unit.
     */
    function FormatPreview(amount: int): (s: string)
      reads this
      ensures |s| >= 2 && s[..2] == "約 "
      ensures material.unit == HoursUnit ==> s[2..] + "/日" == FormatAmount(amount, HoursUnit)
      ensures material.unit != HoursUnit ==> s[2..] + "/日" == FormatAmount(amount, " " + material.unit)
    {
      if material.unit == HoursUnit then
        HoursPreview(amount);
        "約 " + FormatMinutes(amount)
      else
        CountedPreview(amount, material.unit);
        "約 " + (IntToString(amount) + " " + material.unit)
    }

    /** The save button: the form's settings are written onto the stored material with the form's id. */
    method Save()
      requires store.Valid()
      modifies store`materials
      ensures store.Valid()
      ensures store.materials
           == MapWhere(old(store.materials), (m: Material) => m.id == material.id,
                       QuotaSaver(quotaMode, dailyQuota, hasDeadline, deadline, useWeeklyTarget))
    {
      store.materials := MapWhere(store.materials, (m: Material) => m.id == material.id,
                                  QuotaSaver(quotaMode, dailyQuota, hasDeadline, deadline, useWeeklyTarget));
    }
  }

  /**
   * With neither a deadline nor an exam date the preview counts down to
   * today, so it shows the whole remainder, where the quota actually used
   * for such a material is its manual one.
   */
  lemma PreviewWithoutDeadline(form: QuotaEditForm, q: Option<Qualification>, now: Instant)
    requires !form.hasDeadline && form.examDate.None?
    requires !form.useWeeklyTarget || form.weeklyTargetDays <= 7
    requires form.material.deadline.None? && (q.None? || q.value.examDate.None?)
    ensures form.AutoQuotaPreview(now) == RemainingAmount(form.material)
    ensures AutoQuota(form.material, q, StartOfDay(now)) == form.material.dailyQuota
  {
  }

  /**
   * Without a qualification the form spreads a remainder over four study
   * days a week while the home screen assumes seven: 70 minutes due in a
   * week preview as 18 a day but count as 10 a day.
   */
  lemma EditorWeeklyDefaultDiffers(m: Material, today: Day)
    requires m.totalAmount == 70 && m.currentProgress == 0 && m.useWeeklyTarget
    requires m.deadline == Some(DayBegins(today + 7))
    ensures PreviewQuota(RemainingAmount(m), DaysLeft(m.deadline.value, today), true, EditorWeeklyTarget(None)) == 18
    ensures AutoQuota(m, None, today) == 10
  {
    assert DaysLeft(m.deadline.value, today) == 7;
    assert ScaledStudyDays(7, 4) == 28 && ScaledStudyDays(7, 7) == 49;
    CeilDivUnique(490, 28, 18);
    CeilDivUnique(490, 49, 10);
  }
}
