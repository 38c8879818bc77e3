/**
 * The form that adds or edits a material (`Material/MaterialEditView`): its
 * text fields as typed, the validity check that enables saving, the preview
 * of the automatic quota, and the values it hands to the screen on save,
 * with totals of time units typed in hours and stored in minutes.
 */
module MaterialForm {
  import opened Prelude
  import opened Numerics
  import opened Calendar
  import opened Models
  import opened Quota
  import opened Formatting

  /** `CharacterSet.whitespaces`: the tab and the space separators of Unicode (category Zs). */
  predicate IsWhitespace(c: char) {
    || c == '\t' || c == ' ' || c == '\U{00A0}' || c == '\U{1680}'
    || ('\U{2000}' <= c <= '\U{200A}')
    || c == '\U{202F}' || c == '\U{205F}' || c == '\U{3000}'
  }

  /**
   * The total as stored: the typed number (0 when it does not read as one),
   * times 60 for time units, so a time total is always whole hours.
   */
  function SavedTotal(text: string, unit: string): (total: int)
    ensures unit == HoursUnit ==> total % 60 == 0
    ensures ParseInt(text).None? ==> total == 0
  {
    if unit == HoursUnit then ParsedOr(text, 0) * 60 else ParsedOr(text, 0)
  }

  /** The total as the form shows it when editing: whole hours for time units. */
  function ShownTotal(total: int, unit: string): string {
    IntToString(if unit == HoursUnit then TruncDiv(total, 60) else total)
  }

  /**
   * Showing a stored total and saving it untouched gives it back exactly
   * when it is not a time total or is a whole number of hours; otherwise the
   * minutes beyond the hour are lost.
   */
  lemma ShownTotalRoundTrip(total: int, unit: string)
    ensures SavedTotal(ShownTotal(total, unit), unit) == total <==> unit != HoursUnit || TruncRem(total, 60) == 0
    ensures unit == HoursUnit ==> SavedTotal(ShownTotal(total, unit), unit) == total - TruncRem(total, 60)
  {
    TruncDivRem(total, 60);
    ParseIntToString(if unit == HoursUnit then TruncDiv(total, 60) else total);
  }

  /** What `onSave` receives. */
  datatype Draft = Draft(name: string, totalAmount: int, unit: string, dailyQuota: int, quotaMode: QuotaMode,
                         deadline: Option<Instant>, useWeeklyTarget: bool)

  class MaterialEditForm {
    /** The material being edited, or `None` when adding one. */
    const editing: Option<Material>
    const examDate: Option<Instant>
    const weeklyTargetDays: int
    var name: string
    var totalAmount: string
    var unit: string
    var dailyQuota: string
    var quotaMode: QuotaMode
    var hasDeadline: bool
    var deadline: Instant
    var useWeeklyTarget: bool

    /** The form's initial state: empty texts, the default unit, manual mode, no deadline (picker on now). */
    constructor (editing: Option<Material>, examDate: Option<Instant>, weeklyTargetDays: int, now: Instant)
      ensures this.editing == editing && this.examDate == examDate && this.weeklyTargetDays == weeklyTargetDays
      ensures name == "" && totalAmount == "" && unit == DefaultUnit && dailyQuota == ""
      ensures quotaMode == Manual && !hasDeadline && deadline == now && !useWeeklyTarget
    {
      this.editing := editing;
      this.examDate := examDate;
      this.weeklyTargetDays := weeklyTargetDays;
      name, totalAmount, unit, dailyQuota := "", "", DefaultUnit, "";
      quotaMode, hasDeadline, deadline, useWeeklyTarget := Manual, false, now, false;
    }

    /**
     * `onAppear`: when editing, the fields take the material's values (the
     * total in whole hours for time units) and the deadline toggle turns on
     * when it has a deadline; when adding, the picker moves to the exam date
     * if there is one.
     */
    method Appear()
      modifies this`name, this`totalAmount, this`unit, this`dailyQuota, this`quotaMode
      modifies this`hasDeadline, this`deadline, this`useWeeklyTarget
      ensures editing.Some? ==>
        var m := editing.value;
        && name == m.name && totalAmount == ShownTotal(m.totalAmount, m.unit) && unit == m.unit
        && dailyQuota == IntToString(m.dailyQuota) && quotaMode == m.quotaMode && useWeeklyTarget == m.useWeeklyTarget
        && (m.deadline.Some? ==> hasDeadline && deadline == m.deadline.value)
        && (m.deadline.None? ==> hasDeadline == old(hasDeadline) && deadline == old(deadline))
      ensures editing.None? ==>
        && name == old(name) && totalAmount == old(totalAmount) && unit == old(unit) && dailyQuota == old(dailyQuota)
        && quotaMode == old(quotaMode) && useWeeklyTarget == old(useWeeklyTarget) && hasDeadline == old(hasDeadline)
        && deadline == old(if examDate.Some? then examDate.value else deadline)
    {
      if editing.Some? {
        var m := editing.value;
        name := m.name;
        totalAmount := ShownTotal(m.totalAmount, m.unit);
        unit := m.unit;
        dailyQuota := IntToString(m.dailyQuota);
        quotaMode := m.quotaMode;
        useWeeklyTarget := m.useWeeklyTarget;
        if m.deadline.Some? {
          hasDeadline := true;
          deadline := m.deadline.value;
        }
      } else if examDate.Some? {
        deadline := examDate.value;
      }
    }

    /** The name as saved: without surrounding whitespace. */
    function TrimmedName(): string
      reads this
    {
      Trim(name, IsWhitespace)
    }

    /** `isValid`: a name that is not blank and a positive total, and in manual mode a positive quota. */
    function IsValid(): bool
      reads this
    {
      var nameValid := TrimmedName() != [];
      var totalValid := ParsedOr(totalAmount, 0) > 0;
      if quotaMode == Manual then nameValid && totalValid && ParsedOr(dailyQuota, 0) > 0
      else nameValid && totalValid
    }

    /** The day the preview counts down to: the picked deadline, else the exam date, else today. */
    function PreviewDeadline(now: Instant): Instant
      reads this
    {
      if hasDeadline then deadline else examDate.GetOr(now)
    }

    /** What the preview spreads: the edited material's remainder, or the typed total of a new one. */
    function PreviewRemaining(): int
      reads this
    {
      if editing.Some? then RemainingAmount(editing.value) else SavedTotal(totalAmount, unit)
    }

    /** `autoQuotaPreview`: at least one day left, never more than the amount spread. */
    function AutoQuotaPreview(now: Instant): (r: int)
      reads this
      ensures PreviewRemaining() >= 0 ==> 0 <= r <= PreviewRemaining()
    {
      PreviewQuota(PreviewRemaining(), DaysLeft(PreviewDeadline(now), StartOfDay(now)), useWeeklyTarget, weeklyTargetDays)
    }

    /** `autoQuotaPreviewText`. */
    function AutoQuotaPreviewText(now: Instant): string
      reads this
    {
      var value := AutoQuotaPreview(now);
      "→ 1日あたり 約 " + (if unit == HoursUnit then FormatMinutes(value) else IntToString(value) + " " + unit)
    }

    /**
     * The save button: the trimmed name, the total in stored units, the
     * preview as the quota in auto mode (else the typed one, 0 when it does
     * not read as a number), and a deadline only when the toggle is on.
     */
    function Saved(now: Instant): (d: Draft)
      reads this
      ensures d.deadline.None? <==> !hasDeadline
    {
      Draft(TrimmedName(), SavedTotal(totalAmount, unit), unit,
            if quotaMode == Auto then AutoQuotaPreview(now) else ParsedOr(dailyQuota, 0),
            quotaMode, if hasDeadline then Some(deadline) else None, useWeeklyTarget)
    }
  }

  /**
   * A form that can be saved hands over a name that is not blank and does
   * not begin or end with whitespace, a positive total and, in manual mode,
   * a positive quota.
   */
  lemma ValidFormSavesPositive(form: MaterialEditForm, now: Instant)
    requires form.IsValid()
    ensures var d := form.Saved(now);
      && d.name != [] && !IsWhitespace(d.name[0]) && !IsWhitespace(d.name[|d.name| - 1])
      && d.totalAmount > 0
      && (d.quotaMode == Manual ==> d.dailyQuota > 0)
  {
  }

  /**
   * Opening a material in the form and saving it untouched keeps its total
   * exactly when the total is not a time total or is whole hours.
   */
  lemma UntouchedEditTotal(form: MaterialEditForm, m: Material, now: Instant)
    requires form.editing == Some(m)
    requires form.totalAmount == ShownTotal(m.totalAmount, m.unit) && form.unit == m.unit
    ensures form.Saved(now).totalAmount == m.totalAmount <==> m.unit != HoursUnit || TruncRem(m.totalAmount, 60) == 0
  {
    ShownTotalRoundTrip(m.totalAmount, m.unit);
  }

  /**
   * Opening an automatic material whose own deadline lies ahead and saving
   * it stores the quota the home screen computes for it, provided the form
   * was given the weekly target the home screen assumes.
   */
  lemma UntouchedAutoEditStoresAutoQuota(form: MaterialEditForm, m: Material, q: Option<Qualification>, now: Instant)
    requires form.editing == Some(m) && form.quotaMode == Auto
    requires form.hasDeadline && m.deadline == Some(form.deadline)
    requires form.useWeeklyTarget == m.useWeeklyTarget && form.weeklyTargetDays == WeeklyTargetOr7(q)
    requires DaysLeft(form.deadline, StartOfDay(now)) > 0
    ensures form.Saved(now).dailyQuota == AutoQuota(m, q, StartOfDay(now))
  {
    PreviewMatchesAuto(m, q, StartOfDay(now));
  }

  /** A new material's preview spreads the typed total, counted in minutes for time units. */
  lemma NewMaterialPreviewUsesTypedTotal(form: MaterialEditForm)
    requires form.editing.None?
    requires form.unit == HoursUnit
    requires ParseInt(form.totalAmount).Some?
    ensures form.PreviewRemaining() == 60 * ParseInt(form.totalAmount).value
  {
  }
}
