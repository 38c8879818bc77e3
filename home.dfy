/**
 * The home screen's view model: the selected qualification's materials and
 * their logs, the ledger operations on them and the calculators over them.
 */
module Home {
  import opened Prelude
  import opened Calendar
  import opened Models
  import opened Persistence
  import opened DaySets

  class HomeViewModel {
    const store: Store
    var selectedQualification: Option<Qualification>

    ghost predicate Valid()
      reads this, store
    {
      store.Valid()
    }

    constructor (store: Store)
      ensures this.store == store && selectedQualification == None
    {
      this.store := store;
      selectedQualification := None;
    }

    /** `materials` as `fetchMaterials` leaves it: the selected qualification's materials, none without one. */
    function Materials(): (r: seq<Material>)
      reads this, store
      ensures forall m :: m in r <==>
        selectedQualification.Some? && m in store.materials && m.qualificationId == selectedQualification.value.id
    {
      if selectedQualification.None? then [] else MaterialsOf(store.materials, selectedQualification.value.id)
    }

    /** `studyLogs` as `fetchStudyLogs` leaves it: the logs of those materials. */
    function StudyLogs(): (r: seq<StudyLog>)
      reads this, store
      ensures forall l :: l in r <==> l in store.logs && l.materialId in IdsOf(Materials())
    {
      if selectedQualification.None? then [] else LogsOfMaterials(store.logs, IdsOf(Materials()))
    }

    /** `load(for:)`. */
    method Load(q: Option<Qualification>)
      modifies this`selectedQualification
      ensures selectedQualification == q
    {
      selectedQualification := q;
    }

    /**
     * `addMaterial`: without a selected qualification nothing happens;
     * otherwise a new material of that qualification is stored, placed after
     * the ones already listed.
     */
    method AddMaterial(name: string, totalAmount: int, unit: string, dailyQuota: int,
                       quotaMode: QuotaMode, deadline: Option<Instant>, useWeeklyTarget: bool, now: Instant)
      requires Valid()
      modifies store`materials, store`nextId
      ensures Valid()
      ensures selectedQualification.None? ==> store.materials == old(store.materials)
      ensures selectedQualification.Some? ==>
        var m := NewMaterial(old(store.nextId), selectedQualification.value.id, name, totalAmount, unit,
                             dailyQuota, |old(Materials())|, now)
                 .(quotaMode := quotaMode, deadline := deadline, useWeeklyTarget := useWeeklyTarget);
        && store.materials == old(store.materials) + [m]
        && Materials() == old(Materials()) + [m]
    {
      if selectedQualification.None? {
        return;
      }
      var order := |Materials()|;
      var id := store.FreshId();
      var m := NewMaterial(id, selectedQualification.value.id, name, totalAmount, unit, dailyQuota, order, now)
               .(quotaMode := quotaMode, deadline := deadline, useWeeklyTarget := useWeeklyTarget);
      MaterialsOfAppend(store.materials, m, selectedQualification.value.id);
      AppendDistinct(store.materials, m, KeyOfMaterial);
      store.materials := store.materials + [m];
    }

    /** `updateMaterial`: overwrites the editable fields of the material, keeping its progress and place. */
    method UpdateMaterial(materialId: Id, name: string, totalAmount: int, unit: string, dailyQuota: int,
                          quotaMode: QuotaMode, deadline: Option<Instant>, useWeeklyTarget: bool)
      requires Valid()
      modifies store`materials
      ensures Valid()
      ensures store.materials
           == MapWhere(old(store.materials), (m: Material) => m.id == materialId,
                       (m: Material) => m.(name := name, totalAmount := totalAmount, unit := unit, dailyQuota := dailyQuota,
                                           quotaMode := quotaMode, deadline := deadline, useWeeklyTarget := useWeeklyTarget))
    {
      store.materials := MapWhere(store.materials, (m: Material) => m.id == materialId,
                                  (m: Material) => m.(name := name, totalAmount := totalAmount, unit := unit, dailyQuota := dailyQuota,
                                                      quotaMode := quotaMode, deadline := deadline, useWeeklyTarget := useWeeklyTarget));
    }

    /** `deleteMaterial`: the material and all its logs go; other materials' logs stay. */
    method DeleteMaterial(material: Material)
      requires Valid() && material in store.materials
      modifies store`materials, store`logs
      ensures Valid()
      ensures store.logs == LogsWithout(old(store.logs), material.id)
      ensures store.materials == Filter(old(store.materials), (m: Material) => m != material)
      ensures forall m :: m in store.materials <==> m in old(store.materials) && m.id != material.id
    {
      store.DeleteMaterial(material);
    }

    /**
     * `recordProgress(material:amount:)`: the material's progress is clamped
     * at its total, and exactly one log with the requested amount, dated now,
     * joins the study logs.
     */
    method RecordProgress(materialId: Id, amount: int, now: Instant) returns (log: StudyLog)
      requires Valid()
      modifies store`materials, store`logs, store`nextId
      ensures Valid()
      ensures store.materials
           == MapWhere(old(store.materials), (m: Material) => m.id == materialId, (m: Material) => WithRecorded(m, amount))
      ensures forall m :: m in store.materials && m.id == materialId ==> m.currentProgress <= m.totalAmount
      ensures log == NewLog(old(store.nextId), now, materialId, amount)
      ensures store.logs == old(store.logs) + [log]
      ensures materialId in IdsOf(old(Materials())) ==> StudyLogs() == old(StudyLogs()) + [log]
    {
      ghost var before := store.materials;
      log := store.RecordProgress(materialId, amount, now);
      if selectedQualification.Some? {
        RecordKeepsMaterialsOf(before, materialId, amount, selectedQualification.value.id);
        LogsOfMaterialsAppend(old(store.logs), log, IdsOf(Materials()));
      }
    }

    /** `currentStreak` over the study logs. */
    method CurrentStreak(now: Instant) returns (streak: nat)
      ensures streak == Streak(StudyDays(StudyLogs()), StartOfDay(now))
    {
      streak := DaySets.CurrentStreak(StudyDays(StudyLogs()), StartOfDay(now));
    }

    /** `weeklyStudyDays` over the study logs, for the Monday week of today. */
    method WeeklyStudyDays(now: Instant) returns (count: nat)
      ensures count == WeeklyCount(StudyDays(StudyLogs()), StartOfDay(now))
      ensures count <= 7
    {
      count := DaySets.WeeklyStudyDays(StudyDays(StudyLogs()), StartOfDay(now));
    }

    /** `heatmapData(months:)`, with the window's first day (today less `months` months) given. */
    method HeatmapData(windowStart: Day, now: Instant) returns (result: map<Day, int>)
      ensures result == Heatmap(StudyLogs(), windowStart, StartOfDay(now))
    {
      result := DaySets.HeatmapData(StudyLogs(), windowStart, StartOfDay(now));
    }
  }

  /**
   * A log recorded now counts fully toward today's amount of its material,
   * makes today the anchor of a streak of at least one day, and counts
   * toward this week.
   */
  lemma RecordedLogCountsToday(logs: seq<StudyLog>, id: Id, materialId: Id, amount: int, now: Instant)
    ensures var logs' := logs + [NewLog(id, now, materialId, amount)];
      var today := StartOfDay(now);
      && TodayAmount(logs', materialId, today) == TodayAmount(logs, materialId, today) + amount
      && StreakAnchor(StudyDays(logs'), today) == today
      && Streak(StudyDays(logs'), today) >= 1
      && WeeklyCount(StudyDays(logs'), today) >= 1
  {
    var l := NewLog(id, now, materialId, amount);
    TodayAmountAppend(logs, l, materialId, StartOfDay(now));
    assert l in logs + [l];
    WeeklyCountsToday(StudyDays(logs + [l]), StartOfDay(now));
  }

  /** Deleting a material leaves every other material's amount for today as it was. */
  lemma DeleteKeepsOtherTodayAmounts(logs: seq<StudyLog>, gone: Id, other: Id, today: Day)
    requires gone != other
    ensures TodayAmount(LogsWithout(logs, gone), other, today) == TodayAmount(logs, other, today)
  {
    FilterFilterSame(logs, (l: StudyLog) => l.materialId != gone,
                     (l: StudyLog) => l.materialId == other && l.day == today,
                     (l: StudyLog) => l.materialId == other && l.day == today);
  }
}
