/**
 * The daily-quota rules: how much of a material to do per day.
 *
 * All the quota code computes `Int(ceil(x / y))` on `Double`; here that is
 * the exact integer ceiling `CeilDiv`. A weekly target of `w` study days
 * stretches `d` calendar days into `d * w / 7` study days (never less than
 * one); both sides are multiplied by 7 so the division stays exact.
 */
module Quota {
  import opened Prelude
  import opened Numerics
  import opened Calendar
  import opened Models

  /** Seven times `max(1, d * w / 7)`: the study days a weekly target leaves, scaled by 7. */
  function ScaledStudyDays(d: int, w: int): (e: int)
    ensures e >= 7 && e >= d * w
  {
    if d * w < 7 then 7 else d * w
  }

  /** `ceil(r / max(1, d * w / 7))`: the per-study-day share of `r` over `d` days at `w` days a week. */
  function WeeklyCeil(r: int, d: int, w: int): int {
    CeilDiv(7 * r, ScaledStudyDays(d, w))
  }

  /** When the window holds at most one week's worth of study days, everything is due at once. */
  lemma {:induction false} WeeklyCeilShortWindow(r: int, d: int, w: int)
    requires d * w <= 7
    ensures WeeklyCeil(r, d, w) == r
  {
    CeilDivScale(r, 1, 7);
    assert CeilDiv(r, 1) == r;
  }

  /** Studying every day of the week gives the plain per-day share. */
  lemma {:induction false} WeeklyCeilFullWeek(r: int, d: int)
    requires d >= 1
    ensures WeeklyCeil(r, d, 7) == CeilDiv(r, d)
  {
    assert ScaledStudyDays(d, 7) == 7 * d;
    CeilDivScale(r, d, 7);
  }

  /** A non-negative amount gives a share between one (when there is work) and the whole amount. */
  lemma {:induction false} WeeklyCeilBounds(r: int, d: int, w: int)
    requires r >= 0
    ensures 0 <= WeeklyCeil(r, d, w) <= r
    ensures r > 0 ==> WeeklyCeil(r, d, w) >= 1
  {
    CeilDivBounds(7 * r, ScaledStudyDays(d, w));
    CeilDivAntitone(7 * r, 7, ScaledStudyDays(d, w));
    CeilDivScale(r, 1, 7);
    assert CeilDiv(r, 1) == r;
  }

  /** More study days a week never raise the daily share. */
  lemma {:induction false} WeeklyCeilAntitone(r: int, d: int, w1: int, w2: int)
    requires r >= 0 && d > 0 && w1 <= w2
    ensures WeeklyCeil(r, d, w2) <= WeeklyCeil(r, d, w1)
  {
    assert d * w2 - d * w1 == d * (w2 - w1);
    CeilDivAntitone(7 * r, ScaledStudyDays(d, w1), ScaledStudyDays(d, w2));
  }

  /**
   * Studying on fewer than seven days a week never asks for less per study
   * day than spreading the work over every day would.
   */
  lemma {:induction false} WeeklyCeilAtLeastDaily(r: int, d: int, w: int)
    requires r >= 0 && d > 0 && w <= 7
    ensures WeeklyCeil(r, d, w) >= CeilDiv(r, d)
  {
    assert 7 * d - d * w == d * (7 - w);
    CeilDivAntitone(7 * r, ScaledStudyDays(d, w), 7 * d);
    CeilDivScale(r, d, 7);
  }

  /** 100 units with 10 days left: 10 a day when studying daily, 18 a day at four days a week. */
  lemma WeeklyCeilExample()
    ensures WeeklyCeil(100, 10, 7) == 10
    ensures WeeklyCeil(100, 10, 4) == 18
  {
  }

  /** Whole days from the start of `today` to the start of the deadline's day. */
  function DaysLeft(deadline: Instant, today: Day): int {
    DaysBetween(today, StartOfDay(deadline))
  }

  /** `daysUntilExam`: the day count to the exam, or `nil` without an exam date. */
  function DaysUntilExam(examDate: Option<Instant>, today: Day): (r: Option<int>)
    ensures r.Some? <==> examDate.Some?
    ensures r.Some? ==> today + r.value == StartOfDay(examDate.value)
  {
    if examDate.Some? then Some(DaysLeft(examDate.value, today)) else None
  }

  /** The deadline an auto material counts down to: its own, else the qualification's exam date. */
  function AutoDeadline(m: Material, q: Option<Qualification>): (r: Option<Instant>)
    ensures m.deadline.Some? ==> r == m.deadline
    ensures m.deadline.None? && q.Some? ==> r == q.value.examDate
    ensures m.deadline.None? && q.None? ==> r == None
  {
    if m.deadline.Some? then m.deadline else if q.Some? then q.value.examDate else None
  }

  /** `selectedQualification?.weeklyTargetDays ?? 7`. */
  function WeeklyTargetOr7(q: Option<Qualification>): int {
    if q.Some? then q.value.weeklyTargetDays else 7
  }

  /**
   * The per-material automatic quota (the `quotaMode == "auto"` branch of
   * `calculatedDailyQuota`, and `calculateAutoQuota` of the quota settings
   * list): without a deadline the manual quota stands; on or after the
   * deadline all that remains is due; otherwise the remainder is spread over
   * the days left, thinned by the weekly target when the material asks for it.
   */
  function AutoQuota(m: Material, q: Option<Qualification>, today: Day): (r: int)
    ensures AutoDeadline(m, q).None? ==> r == m.dailyQuota
    ensures AutoDeadline(m, q).Some? && DaysLeft(AutoDeadline(m, q).value, today) <= 0 ==> r == RemainingAmount(m)
    ensures AutoDeadline(m, q).Some? ==> 0 <= r <= RemainingAmount(m)
    ensures AutoDeadline(m, q).Some? && RemainingAmount(m) > 0 ==> r >= 1
  {
    match AutoDeadline(m, q)
    case None => m.dailyQuota
    case Some(deadline) =>
      var daysLeft := DaysLeft(deadline, today);
      var remaining := RemainingAmount(m);
      if daysLeft <= 0 then remaining
      else if m.useWeeklyTarget then
        WeeklyCeilBounds(remaining, daysLeft, WeeklyTargetOr7(q));
        WeeklyCeil(remaining, daysLeft, WeeklyTargetOr7(q))
      else
        CeilDivBounds(remaining, daysLeft);
        CeilDiv(remaining, daysLeft)
  }

  /**
   * Doing the automatic quota on every study day finishes the remainder by
   * the deadline, and one unit a day less would not.
   */
  lemma AutoQuotaFinishesInTime(m: Material, q: Option<Qualification>, today: Day)
    requires AutoDeadline(m, q).Some?
    requires DaysLeft(AutoDeadline(m, q).value, today) > 0
    ensures var d := DaysLeft(AutoDeadline(m, q).value, today);
      var r := AutoQuota(m, q, today);
      if m.useWeeklyTarget then
        var e := ScaledStudyDays(d, WeeklyTargetOr7(q));
        r * e >= 7 * RemainingAmount(m) && (r - 1) * e < 7 * RemainingAmount(m)
      else
        r * d >= RemainingAmount(m) && (r - 1) * d < RemainingAmount(m)
  {
  }

  /**
   * The legacy rule: `ceil(r / (d * w / 7))` with no lower bound on the
   * divisor, the least quota that done on `d * w / 7` study days covers `r`.
   */
  function LegacyQuota(r: int, d: int, w: int): (quota: int)
    requires d > 0 && w > 0
    ensures (quota - 1) * (d * w) < 7 * r <= quota * (d * w)
  {
    CeilDiv(7 * r, d * w)
  }

  /** When the weekly target leaves at least one study day, the legacy rule agrees with the weekly one. */
  lemma LegacyMatchesWeekly(r: int, d: int, w: int)
    requires d > 0 && w > 0 && d * w >= 7
    ensures LegacyQuota(r, d, w) == WeeklyCeil(r, d, w)
  {
  }

  /**
   * The legacy rule asks for more than the whole remainder exactly when the
   * weekly target leaves less than one study day before the exam.
   */
  lemma {:induction false} LegacyExceedsRemainder(r: int, d: int, w: int)
    requires r > 0 && d > 0 && w > 0
    ensures LegacyQuota(r, d, w) > r <==> d * w < 7
  {
    var q := LegacyQuota(r, d, w);
    if d * w < 7 {
      assert 7 * r - r * (d * w) == r * (7 - d * w);
      assert r * (d * w) < 7 * r <= q * (d * w);
      MulLtCancel(r, q, d * w);
    } else {
      CeilDivAntitone(7 * r, 7, d * w);
      CeilDivScale(r, 1, 7);
      assert CeilDiv(r, 1) == r;
    }
  }

  /**
   * Whether the qualification-level ("legacy") automatic rule applies: the
   * qualification is in auto mode, has an exam still ahead and a positive
   * weekly target. It is consulted only for materials not in auto mode.
   */
  predicate LegacyApplies(q: Option<Qualification>, today: Day) {
    && q.Some?
    && q.value.quotaMode == Auto
    && q.value.examDate.Some?
    && DaysLeft(q.value.examDate.value, today) > 0
    && q.value.weeklyTargetDays > 0
  }

  /**
   * `HomeViewModel.calculatedDailyQuota(for:)`: the quota is decided by the
   * first applicable rule in the order: the material's own auto mode, the
   * qualification's legacy auto mode, the manual quota.
   */
  function CalculatedDailyQuota(m: Material, q: Option<Qualification>, today: Day): (quota: int)
    ensures quota == FirstApplicable([MaterialAutoRule(m, q, today), LegacyRule(m, q, today)], m.dailyQuota)
  {
    if m.quotaMode == Auto then AutoQuota(m, q, today)
    else if LegacyApplies(q, today) then
      LegacyQuota(RemainingAmount(m), DaysLeft(q.value.examDate.value, today), q.value.weeklyTargetDays)
    else m.dailyQuota
  }

  // The resolution order as a list of rules, each answering only when it applies.

  function MaterialAutoRule(m: Material, q: Option<Qualification>, today: Day): Option<int> {
    if m.quotaMode == Auto then Some(AutoQuota(m, q, today)) else None
  }

  function LegacyRule(m: Material, q: Option<Qualification>, today: Day): Option<int> {
    if LegacyApplies(q, today) then
      Some(LegacyQuota(RemainingAmount(m), DaysLeft(q.value.examDate.value, today), q.value.weeklyTargetDays))
    else None
  }

  /** The answer of the first rule that applies, or `fallback` when none does. */
  function FirstApplicable(rules: seq<Option<int>>, fallback: int): (r: int)
    ensures (forall i :: 0 <= i < |rules| ==> rules[i].None?) ==> r == fallback
    ensures forall i :: 0 <= i < |rules| && rules[i].Some? && (forall j :: 0 <= j < i ==> rules[j].None?) ==>
      r == rules[i].value
  {
    if rules == [] then fallback
    else if rules[0].Some? then rules[0].value
    else FirstApplicable(rules[1..], fallback)
  }

  /** A material in auto mode with a deadline is never asked for more than it has left. */
  lemma CalculatedAutoWithinRemainder(m: Material, q: Option<Qualification>, today: Day)
    requires m.quotaMode == Auto && AutoDeadline(m, q).Some?
    ensures 0 <= CalculatedDailyQuota(m, q, today) <= RemainingAmount(m)
  {
  }

  /** Under the legacy rule one study day a week with an exam tomorrow asks for seven times what is left. */
  lemma LegacyExample(m: Material, q: Qualification, today: Day)
    requires m.quotaMode == Manual && m.totalAmount == 10 && m.currentProgress == 9
    requires q.quotaMode == Auto && q.weeklyTargetDays == 1
    requires q.examDate == Some(DayBegins(today + 1))
    ensures CalculatedDailyQuota(m, Some(q), today) == 7
  {
  }

  /** The legacy global settings seen as a qualification, for the comparison below. */
  function SettingsAsQualification(s: AppSettings): Qualification {
    Qualification(s.id, "", s.examDate, s.weeklyTargetDays, s.quotaMode, 0, true)
  }

  /** `StudyViewModel.calculatedDailyQuota(for:)`: the legacy rule over the global settings only. */
  function StudyDailyQuota(m: Material, settings: Option<AppSettings>, today: Day): (r: int)
    ensures settings.None? ==> r == m.dailyQuota
  {
    var q := if settings.Some? then Some(SettingsAsQualification(settings.value)) else None;
    if LegacyApplies(q, today) then
      LegacyQuota(RemainingAmount(m), DaysLeft(q.value.examDate.value, today), q.value.weeklyTargetDays)
    else m.dailyQuota
  }

  /**
   * The older screen ignores a material's own mode; for a material in manual
   * mode it gives the same quota as the newer one does with the same settings.
   */
  lemma StudyQuotaMatchesHomeForManual(m: Material, s: AppSettings, today: Day)
    requires m.quotaMode == Manual
    ensures StudyDailyQuota(m, Some(s), today) == CalculatedDailyQuota(m, Some(SettingsAsQualification(s)), today)
  {
  }

  /**
   * The automatic quota shown by the editing forms: the days left are taken
   * as at least one, so a past or missing deadline spreads nothing.
   */
  function PreviewQuota(remaining: int, daysLeft: int, useWeeklyTarget: bool, w: int): (r: int)
    ensures remaining >= 0 ==> 0 <= r <= remaining
    ensures daysLeft <= 1 && (!useWeeklyTarget || w <= 7) ==> r == remaining
  {
    var d := if daysLeft < 1 then 1 else daysLeft;
    if useWeeklyTarget then
      assert daysLeft <= 1 && w <= 7 ==> WeeklyCeil(remaining, d, w) == remaining by {
        if daysLeft <= 1 && w <= 7 { WeeklyCeilShortWindow(remaining, 1, w); }
      }
      assert remaining >= 0 ==> 0 <= WeeklyCeil(remaining, d, w) <= remaining by {
        if remaining >= 0 { WeeklyCeilBounds(remaining, d, w); }
      }
      WeeklyCeil(remaining, d, w)
    else
      assert CeilDiv(remaining, 1) == remaining;
      assert remaining >= 0 ==> 0 <= CeilDiv(remaining, d) <= remaining by {
        if remaining >= 0 { CeilDivBounds(remaining, d); }
      }
      CeilDiv(remaining, d)
  }

  /** With a deadline still ahead, the preview shows the automatic quota. */
  lemma PreviewMatchesAuto(m: Material, q: Option<Qualification>, today: Day)
    requires AutoDeadline(m, q).Some? && DaysLeft(AutoDeadline(m, q).value, today) > 0
    ensures PreviewQuota(RemainingAmount(m), DaysLeft(AutoDeadline(m, q).value, today),
                         m.useWeeklyTarget, WeeklyTargetOr7(q))
         == AutoQuota(m, q, today)
  {
  }
}
