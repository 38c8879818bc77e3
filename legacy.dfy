/**
 * The older study view model: the same ledger and calculators over every
 * material and log in the store, with quotas taken from the single global
 * settings record.
 */
module Legacy {
  import opened Prelude
  import opened Calendar
  import opened Models
  import opened Persistence
  import opened DaySets
  import Quota

  class StudyViewModel {
    const store: Store
    /** The settings record in use, as last fetched or updated. */
    var appSettings: Option<AppSettings>

    ghost predicate Valid()
      reads this, store
    {
      store.Valid()
    }

    /** `init`, which runs `fetchAll`: afterwards the settings are present. */
    constructor (store: Store)
      requires store.Valid()
      modifies store`settings, store`nextId
      ensures this.store == store && Valid()
      ensures appSettings.Some? && appSettings.value in store.settings
      ensures |old(store.settings)| > 0 ==> appSettings == Some(old(store.settings)[0]) && store.settings == old(store.settings)
      ensures |old(store.settings)| == 0 ==>
        appSettings == Some(DefaultSettings(old(store.nextId))) && store.settings == [appSettings.value]
    {
      this.store := store;
      new;
      var settings := store.FetchOrCreateSettings();
      appSettings := Some(settings);
    }

    /**
     * `fetchAppSettings`: takes the first stored settings record, or stores
     * and takes a new default one when there is none. Afterwards the settings
     * are always present.
     */
    method FetchAppSettings()
      requires Valid()
      modifies this`appSettings, store`settings, store`nextId
      ensures Valid()
      ensures appSettings.Some? && appSettings.value in store.settings
      ensures |old(store.settings)| > 0 ==> appSettings == Some(old(store.settings)[0]) && store.settings == old(store.settings)
      ensures |old(store.settings)| == 0 ==>
        appSettings == Some(DefaultSettings(old(store.nextId))) && store.settings == [appSettings.value]
    {
      var settings := store.FetchOrCreateSettings();
      appSettings := Some(settings);
    }

    /** Applies `f` to the settings in use, both here and in the store; nothing without settings. */
    method UpdateSettings(f: AppSettings -> AppSettings)
      requires Valid()
      requires forall s :: f(s).id == s.id
      modifies this`appSettings, store`settings
      ensures Valid()
      ensures old(appSettings).None? ==> appSettings == None && store.settings == old(store.settings)
      ensures old(appSettings).Some? ==>
        var id := old(appSettings).value.id;
        && appSettings == Some(f(old(appSettings).value))
        && store.settings == MapWhere(old(store.settings), (s: AppSettings) => s.id == id, f)
    {
      if appSettings.Some? {
        store.UpdateSettings(appSettings.value.id, f);
        appSettings := Some(f(appSettings.value));
      }
    }

    /** `updateExamDate`: stores the date, or clears it. */
    method UpdateExamDate(date: Option<Instant>)
      requires Valid()
      modifies this`appSettings, store`settings
      ensures Valid()
      ensures old(appSettings).None? ==> appSettings == None && store.settings == old(store.settings)
      ensures old(appSettings).Some? ==>
        var id := old(appSettings).value.id;
        && appSettings == Some(old(appSettings).value.(examDate := date))
        && store.settings == MapWhere(old(store.settings), (s: AppSettings) => s.id == id, (s: AppSettings) => s.(examDate := date))
    {
      UpdateSettings((s: AppSettings) => s.(examDate := date));
    }

    /** `updateWeeklyTargetDays`: stores the value as given, unchecked. */
    method UpdateWeeklyTargetDays(days: int)
      requires Valid()
      modifies this`appSettings, store`settings
      ensures Valid()
      ensures old(appSettings).None? ==> appSettings == None && store.settings == old(store.settings)
      ensures old(appSettings).Some? ==>
        var id := old(appSettings).value.id;
        && appSettings == Some(old(appSettings).value.(weeklyTargetDays := days))
        && store.settings == MapWhere(old(store.settings), (s: AppSettings) => s.id == id, (s: AppSettings) => s.(weeklyTargetDays := days))
    {
      UpdateSettings((s: AppSettings) => s.(weeklyTargetDays := days));
    }

    /** `updateQuotaCalculationMode`. */
    method UpdateQuotaCalculationMode(mode: QuotaMode)
      requires Valid()
      modifies this`appSettings, store`settings
      ensures Valid()
      ensures old(appSettings).None? ==> appSettings == None && store.settings == old(store.settings)
      ensures old(appSettings).Some? ==>
        var id := old(appSettings).value.id;
        && appSettings == Some(old(appSettings).value.(quotaMode := mode))
        && store.settings == MapWhere(old(store.settings), (s: AppSettings) => s.id == id, (s: AppSettings) => s.(quotaMode := mode))
    {
      UpdateSettings((s: AppSettings) => s.(quotaMode := mode));
    }

    /** `recordProgress(material:amount:)`: clamped progress, one raw-amount log dated now. */
    method RecordProgress(materialId: Id, amount: int, now: Instant) returns (log: StudyLog)
      requires Valid()
      modifies store`materials, store`logs, store`nextId
      ensures Valid()
      ensures store.materials
           == MapWhere(old(store.materials), (m: Material) => m.id == materialId, (m: Material) => WithRecorded(m, amount))
      ensures forall m :: m in store.materials && m.id == materialId ==> m.currentProgress <= m.totalAmount
      ensures log == NewLog(old(store.nextId), now, materialId, amount)
      ensures store.logs == old(store.logs) + [log]
    {
      log := store.RecordProgress(materialId, amount, now);
    }

    /** `deleteMaterial`: the material and every log of it go, other logs stay. */
    method DeleteMaterial(material: Material)
      requires Valid() && material in store.materials
      modifies store`materials, store`logs
      ensures Valid()
      ensures store.logs == LogsWithout(old(store.logs), material.id)
      ensures store.materials == Filter(old(store.materials), (m: Material) => m != material)
      ensures forall m :: m in store.materials <==> m in old(store.materials) && m.id != material.id
    {
      store.DeleteMaterial(material);
    }

    /** `currentStreak`, over every stored log. */
    method CurrentStreak(now: Instant) returns (streak: nat)
      ensures streak == Streak(StudyDays(store.logs), StartOfDay(now))
    {
      streak := DaySets.CurrentStreak(StudyDays(store.logs), StartOfDay(now));
    }

    /** `weeklyStudyDays`, over every stored log. */
    method WeeklyStudyDays(now: Instant) returns (count: nat)
      ensures count == WeeklyCount(StudyDays(store.logs), StartOfDay(now))
      ensures count <= 7
    {
      count := DaySets.WeeklyStudyDays(StudyDays(store.logs), StartOfDay(now));
    }

    /** `heatmapData(months:)`, over every stored log, with the window's first day given. */
    method HeatmapData(windowStart: Day, now: Instant) returns (result: map<Day, int>)
      ensures result == Heatmap(store.logs, windowStart, StartOfDay(now))
    {
      result := DaySets.HeatmapData(store.logs, windowStart, StartOfDay(now));
    }

    /** `calculatedDailyQuota(for:)`: the manual quota unless the global auto rule applies. */
    method CalculatedDailyQuota(m: Material, now: Instant) returns (quota: int)
      ensures quota == Quota.StudyDailyQuota(m, appSettings, StartOfDay(now))
      ensures appSettings.None? ==> quota == m.dailyQuota
    {
      quota := Quota.StudyDailyQuota(m, appSettings, StartOfDay(now));
    }
  }

  /**
   * The global rule gives the manual quota unless the settings are in auto
   * mode with an exam still ahead and a positive weekly target; then it
   * gives `ceil(7 * remaining / (daysLeft * weeklyTarget))`.
   */
  lemma StudyQuotaCases(m: Material, s: AppSettings, today: Day)
    ensures !(s.quotaMode == Auto && s.examDate.Some? && Quota.DaysLeft(s.examDate.value, today) > 0 && s.weeklyTargetDays > 0)
            ==> Quota.StudyDailyQuota(m, Some(s), today) == m.dailyQuota
    ensures s.quotaMode == Auto && s.examDate.Some? && Quota.DaysLeft(s.examDate.value, today) > 0 && s.weeklyTargetDays > 0
            ==> (Quota.StudyDailyQuota(m, Some(s), today)
                 == Quota.LegacyQuota(RemainingAmount(m), Quota.DaysLeft(s.examDate.value, today), s.weeklyTargetDays))
  {
  }
}
