/**
 * The persisted records of the app, as values: materials, study logs,
 * qualifications (goals), the legacy global settings, memos and memo images.
 * Identifiers (`UUID` in the app) are natural numbers handed out fresh by the
 * store.
 */
module Models {
  import opened Prelude
  import opened Calendar

  type Id = nat

  /** Raw image bytes (`Data`). */
  type Bytes = seq<bv8>

  /** The unit name that marks a time-based material; its amounts are minutes. */
  const HoursUnit: string := "時間"

  /** The unit a new material starts with. */
  const DefaultUnit: string := "ページ"

  /** How a quota is obtained: the stored strings "manual" and "auto". */
  datatype QuotaMode = Manual | Auto

  datatype Material = Material(
    id: Id,
    qualificationId: Id,
    name: string,
    totalAmount: int,
    currentProgress: int,
    unit: string,
    dailyQuota: int,
    order: int,
    createdAt: Instant,
    quotaMode: QuotaMode,
    deadline: Option<Instant>,
    useWeeklyTarget: bool)
  {
    predicate IsTimeUnit() {
      unit == HoursUnit
    }
  }

  /**
   * `Material(qualificationId:name:totalAmount:unit:dailyQuota:order:)`: a
   * material with no progress, in manual mode, without deadline or weekly
   * target (the defaults `addMaterial` starts from).
   */
  function NewMaterial(id: Id, qualificationId: Id, name: string, totalAmount: int, unit: string,
                       dailyQuota: int, order: int, now: Instant): Material
  {
    Material(id, qualificationId, name, totalAmount, 0, unit, dailyQuota, order, now, Manual, None, false)
  }

  /** `remainingAmount`: what is left to do, never negative. */
  function RemainingAmount(m: Material): (r: nat)
    ensures m.currentProgress <= m.totalAmount ==> r == m.totalAmount - m.currentProgress
    ensures m.currentProgress >= m.totalAmount ==> r == 0
  {
    if m.currentProgress < m.totalAmount then m.totalAmount - m.currentProgress else 0
  }

  /** A new material has done nothing yet and keeps what it was given. */
  lemma NewMaterialUntouched(id: Id, qualificationId: Id, name: string, totalAmount: int, unit: string,
                             dailyQuota: int, order: int, now: Instant)
    requires totalAmount >= 0
    ensures var m := NewMaterial(id, qualificationId, name, totalAmount, unit, dailyQuota, order, now);
      && m.currentProgress == 0
      && RemainingAmount(m) == totalAmount
      && m.name == name && m.totalAmount == totalAmount && m.unit == unit
      && m.dailyQuota == dailyQuota && m.order == order
      && m.quotaMode == Manual && m.deadline == None && !m.useWeeklyTarget
  {
  }

  /** `min(currentProgress + amount, totalAmount)`: progress after recording `amount`. */
  function ClampedProgress(m: Material, amount: int): (p: int)
    ensures p <= m.totalAmount && p <= m.currentProgress + amount
    ensures p == m.currentProgress + amount || p == m.totalAmount
  {
    if m.currentProgress + amount < m.totalAmount then m.currentProgress + amount else m.totalAmount
  }

  /** The material after `amount` more was recorded against it. */
  function WithRecorded(m: Material, amount: int): Material {
    m.(currentProgress := ClampedProgress(m, amount))
  }

  /** A dated entry of work on a material; `day` is the start-of-day key of its date. */
  datatype StudyLog = StudyLog(id: Id, day: Day, materialId: Id, amount: int)

  /** `StudyLog(date:materialId:amount:)`: the date is cut down to its day, the rest is kept as given. */
  function NewLog(id: Id, date: Instant, materialId: Id, amount: int): StudyLog {
    StudyLog(id, StartOfDay(date), materialId, amount)
  }

  /** Logs created at any two moments of one day get the same day key, that of the day. */
  lemma NewLogSameDay(id1: Id, id2: Id, t1: Instant, t2: Instant, d: Day, materialId: Id, a1: int, a2: int)
    requires DayBegins(d) <= t1 < DayBegins(d + 1)
    requires DayBegins(d) <= t2 < DayBegins(d + 1)
    ensures NewLog(id1, t1, materialId, a1).day == d == NewLog(id2, t2, materialId, a2).day
  {
    SameDaySameKey(t1, t2, d);
  }

  /** A qualification (exam goal) that owns materials and memos. */
  datatype Qualification = Qualification(
    id: Id,
    name: string,
    examDate: Option<Instant>,
    weeklyTargetDays: int,
    quotaMode: QuotaMode,
    createdAt: Instant,
    isSelected: bool)

  function NewQualification(id: Id, name: string, examDate: Option<Instant>, weeklyTargetDays: int,
                            quotaMode: QuotaMode, isSelected: bool, now: Instant): Qualification
  {
    Qualification(id, name, examDate, weeklyTargetDays, quotaMode, now, isSelected)
  }

  /** The global settings record; `selectedQualificationId` is the field the qualification screen writes. */
  datatype AppSettings = AppSettings(
    id: Id,
    examDate: Option<Instant>,
    weeklyTargetDays: int,
    quotaMode: QuotaMode,
    selectedQualificationId: Option<Id>)

  /** `AppSettings()`: no exam date, four study days a week, manual quotas. */
  function DefaultSettings(id: Id): AppSettings {
    AppSettings(id, None, 4, Manual, None)
  }

  datatype Memo = Memo(id: Id, qualificationId: Id, materialId: Option<Id>, content: string, createdAt: Instant)

  datatype MemoImage = MemoImage(id: Id, memoId: Id, imageData: Bytes, order: int, createdAt: Instant)

  // The identifier of each kind of record, as a key for `DistinctBy`.

  function KeyOfMaterial(m: Material): int { m.id }
  function KeyOfLog(l: StudyLog): int { l.id }
  function KeyOfQualification(q: Qualification): int { q.id }
  function KeyOfSettings(s: AppSettings): int { s.id }
  function KeyOfMemo(m: Memo): int { m.id }
  function KeyOfImage(i: MemoImage): int { i.id }
}
