/**
 * The calculators that turn dated study logs into numbers: the streak of
 * consecutive study days, the study days of the current Monday week, the
 * heatmap's per-day sums and the amount done today on one material.
 */
module DaySets {
  import opened Prelude
  import opened Calendar
  import opened Models

  /** The days on which anything was logged: `Set(studyLogs.map { startOfDay($0.date) })`. */
  function StudyDays(logs: seq<StudyLog>): (days: set<Day>)
    ensures forall l :: l in logs ==> l.day in days
    ensures forall d :: d in days ==> exists l :: l in logs && l.day == d
  {
    set l | l in logs :: l.day
  }

  // ---------------------------------------------------------------
  // Streak
  // ---------------------------------------------------------------

  /** The length of the run of consecutive days of `days` that ends at `d`, counted backwards. */
  function RunBack(days: set<Day>, d: Day): nat
    decreases |days|
  {
    if d in days then 1 + RunBack(days - {d}, d - 1) else 0
  }

  /** Whether `d`, `d - 1`, …, `d - k + 1` are all study days and `d - k` is not. */
  ghost predicate IsRunBack(days: set<Day>, d: Day, k: nat) {
    (forall e :: d - k < e <= d ==> e in days) && d - k !in days
  }

  /** `RunBack` is the run: every day of it is a study day and the day before it is not. */
  lemma {:induction false} RunBackIsRun(days: set<Day>, d: Day)
    ensures IsRunBack(days, d, RunBack(days, d))
    decreases |days|
  {
    if d in days {
      var rest := days - {d};
      var k' := RunBack(rest, d - 1);
      RunBackIsRun(rest, d - 1);
      forall e | d - (1 + k') < e <= d
        ensures e in days
      {
        if e < d {
          assert e in rest;
        }
      }
    }
  }

  /** Only one length describes the run ending at `d`. */
  lemma RunBackUnique(days: set<Day>, d: Day, k: nat)
    requires IsRunBack(days, d, k)
    ensures k == RunBack(days, d)
  {
    var k0 := RunBack(days, d);
    RunBackIsRun(days, d);
    assert k < k0 ==> d - k in days;
    assert k0 < k ==> d - k0 in days;
  }

  /** The day the streak counts back from: today when it is a study day, else yesterday. */
  function StreakAnchor(days: set<Day>, today: Day): Day {
    if today in days then today else today - 1
  }

  /**
   * `currentStreak` over a set of study days: the anchor and the days before
   * it back to the streak's length are study days, the next one back is not.
   */
  function Streak(days: set<Day>, today: Day): (streak: nat)
    ensures IsRunBack(days, StreakAnchor(days, today), streak)
  {
    RunBackIsRun(days, StreakAnchor(days, today));
    RunBack(days, StreakAnchor(days, today))
  }

  /** The streak is exactly the length of the maximal run of study days that ends at the anchor. */
  lemma StreakIsMaximalRun(days: set<Day>, today: Day, k: nat)
    ensures k == Streak(days, today) <==> IsRunBack(days, StreakAnchor(days, today), k)
  {
    RunBackIsRun(days, StreakAnchor(days, today));
    if IsRunBack(days, StreakAnchor(days, today), k) {
      RunBackUnique(days, StreakAnchor(days, today), k);
    }
  }

  /** The streak is zero exactly when neither today nor yesterday is a study day. */
  lemma StreakZero(days: set<Day>, today: Day)
    ensures Streak(days, today) == 0 <==> today !in days && today - 1 !in days
  {
  }

  /** Study today, yesterday and the day before, but not the day before that: a streak of 3. */
  lemma StreakExampleThroughToday(today: Day)
    ensures Streak({today, today - 1, today - 2}, today) == 3
  {
    RunBackUnique({today, today - 1, today - 2}, today, 3);
  }

  /** Study yesterday and the day before but not yet today: the streak still counts 2. */
  lemma StreakExampleThroughYesterday(today: Day)
    ensures Streak({today - 1, today - 2}, today) == 2
  {
    RunBackUnique({today - 1, today - 2}, today - 1, 2);
  }

  /** `currentStreak`: walks back from the anchor while the day was a study day. */
  method CurrentStreak(days: set<Day>, today: Day) returns (streak: nat)
    ensures streak == Streak(days, today)
  {
    streak := 0;
    var check := today;
    if check !in days {
      check := today - 1;
    }
    ghost var left := days;
    while check in days
      invariant streak + RunBack(left, check) == Streak(days, today)
      invariant forall e :: e <= check ==> (e in left <==> e in days)
      decreases |left|
    {
      assert check in left;
      streak := streak + 1;
      left := left - {check};
      check := check - 1;
    }
    assert check !in left;
  }

  // ---------------------------------------------------------------
  // Weekly attainment
  // ---------------------------------------------------------------

  /** The study days among the `n` days starting at `start`. */
  function DaysInRange(days: set<Day>, start: Day, n: int): set<Day> {
    set d | d in days && start <= d < start + n
  }

  /** Widening the range by one day adds that day exactly when it is a study day. */
  lemma DaysInRangeStep(days: set<Day>, start: Day, n: int)
    requires n >= 0
    ensures start + n !in DaysInRange(days, start, n)
    ensures DaysInRange(days, start, n + 1)
         == DaysInRange(days, start, n) + (if start + n in days then {start + n} else {})
  {
    if start + n in days {
      assert DaysInRange(days, start, n + 1) == DaysInRange(days, start, n) + {start + n};
    } else {
      assert DaysInRange(days, start, n + 1) == DaysInRange(days, start, n);
    }
  }

  /** A range of `n` days holds at most `n` study days. */
  lemma {:induction false} DaysInRangeAtMost(days: set<Day>, start: Day, n: nat)
    ensures |DaysInRange(days, start, n)| <= n
  {
    if n > 0 {
      DaysInRangeAtMost(days, start, n - 1);
      DaysInRangeStep(days, start, n - 1);
    } else {
      assert DaysInRange(days, start, 0) == {};
    }
  }

  /** The number of study days in the Monday-first week that contains `today`: at most seven. */
  function WeeklyCount(days: set<Day>, today: Day): (count: nat)
    ensures count <= 7
  {
    DaysInRangeAtMost(days, MondayOf(today), 7);
    |DaysInRange(days, MondayOf(today), 7)|
  }

  /** `weeklyStudyDays`: counts the study days among the seven days from this week's Monday. */
  method WeeklyStudyDays(days: set<Day>, today: Day) returns (count: nat)
    ensures count == WeeklyCount(days, today)
    ensures count <= 7
  {
    var monday := MondayOf(today);
    count := 0;
    for offset := 0 to 7
      invariant count == |DaysInRange(days, monday, offset)|
      invariant count <= offset
    {
      DaysInRangeStep(days, monday, offset);
      if monday + offset in days {
        count := count + 1;
      }
    }
  }

  /** A study day today always counts toward this week. */
  lemma WeeklyCountsToday(days: set<Day>, today: Day)
    requires today in days
    ensures WeeklyCount(days, today) >= 1
  {
    assert today in DaysInRange(days, MondayOf(today), 7);
  }

  /** Study on Monday, Wednesday and Friday of this week: 3, whichever day of the week it is. */
  lemma WeeklyExample(monday: Day, today: Day)
    requires Weekday(monday) == 2 && monday <= today <= monday + 6
    ensures WeeklyCount({monday, monday + 2, monday + 4}, today) == 3
  {
    MondayOfUnique(today, monday);
    assert DaysInRange({monday, monday + 2, monday + 4}, monday, 7) == {monday, monday + 2, monday + 4};
  }

  /**
   * The count as the source computes it in a locale whose weeks begin on
   * `firstWeekday` (see `Calendar.LocaleWeekMonday`).
   */
  function LocaleWeeklyCount(days: set<Day>, today: Day, firstWeekday: int): nat
    requires 1 <= firstWeekday <= 7
  {
    |DaysInRange(days, LocaleWeekMonday(today, firstWeekday), 7)|
  }

  /**
   * In a Sunday-first locale, on a Sunday, that computation looks at the
   * seven days after today: a study day today is not counted, though it is
   * the last day of the Monday week it belongs to.
   */
  lemma LocaleWeeklyMissesSunday(today: Day)
    requires Weekday(today) == 1
    ensures LocaleWeeklyCount({today}, today, 1) == 0
    ensures WeeklyCount({today}, today) == 1
  {
    LocaleWeekMondaySundayFirstOnSunday(today);
    assert DaysInRange({today}, today + 1, 7) == {};
    assert DaysInRange({today}, MondayOf(today), 7) == {today};
  }

  // ---------------------------------------------------------------
  // Heatmap
  // ---------------------------------------------------------------

  /** Whether day `d` lies in the heatmap window `[start, today]`. */
  predicate InWindow(d: Day, start: Day, today: Day) {
    start <= d <= today
  }

  /** The days within the window on which something was logged. */
  function WindowDays(logs: seq<StudyLog>, start: Day, today: Day): set<Day> {
    set l | l in logs && InWindow(l.day, start, today) :: l.day
  }

  /** The total amount logged on day `d`, over all materials. */
  function DaySum(logs: seq<StudyLog>, d: Day): int {
    SumOf(logs, (l: StudyLog) => if l.day == d then l.amount else 0)
  }

  /** A day with no logs sums to zero. */
  lemma DaySumNone(logs: seq<StudyLog>, d: Day)
    requires forall l :: l in logs ==> l.day != d
    ensures DaySum(logs, d) == 0
  {
    SumOfZero(logs, (l: StudyLog) => if l.day == d then l.amount else 0);
  }

  /**
   * The heatmap buckets: every day of the window on which something was
   * logged, and no day outside it, with the sum of that day's amounts.
   */
  function Heatmap(logs: seq<StudyLog>, start: Day, today: Day): (buckets: map<Day, int>)
    ensures forall d :: d in buckets ==> InWindow(d, start, today) && buckets[d] == DaySum(logs, d)
    ensures forall l :: l in logs && InWindow(l.day, start, today) ==> l.day in buckets
  {
    map d | d in WindowDays(logs, start, today) :: DaySum(logs, d)
  }

  /** `heatmapData`: adds each in-window log's amount into its day's bucket. */
  method HeatmapData(logs: seq<StudyLog>, start: Day, today: Day) returns (result: map<Day, int>)
    ensures result == Heatmap(logs, start, today)
  {
    result := map[];
    for i := 0 to |logs|
      invariant result.Keys == WindowDays(logs[..i], start, today)
      invariant forall d :: d in result ==> result[d] == DaySum(logs[..i], d)
    {
      var l := logs[i];
      assert logs[..i + 1] == logs[..i] + [l];
      assert logs[..i + 1][..i] == logs[..i];
      if InWindow(l.day, start, today) {
        if l.day !in result {
          DaySumNone(logs[..i], l.day);
          result := result[l.day := 0 + l.amount];
        } else {
          result := result[l.day := result[l.day] + l.amount];
        }
      }
    }
    assert logs[..|logs|] == logs;
  }

  /** A log outside the window changes no bucket. */
  lemma HeatmapIgnoresOutside(logs: seq<StudyLog>, l: StudyLog, start: Day, today: Day)
    requires !InWindow(l.day, start, today)
    ensures Heatmap(logs + [l], start, today) == Heatmap(logs, start, today)
  {
    var logs' := logs + [l];
    assert logs'[..|logs'| - 1] == logs;
    assert WindowDays(logs', start, today) == WindowDays(logs, start, today);
  }

  /** A log inside the window adds its amount to its own day's bucket and to no other. */
  lemma HeatmapAddsInside(logs: seq<StudyLog>, l: StudyLog, start: Day, today: Day)
    requires InWindow(l.day, start, today)
    ensures var before := Heatmap(logs, start, today);
      Heatmap(logs + [l], start, today)
        == before[l.day := (if l.day in before then before[l.day] else 0) + l.amount]
  {
    var logs' := logs + [l];
    var before := Heatmap(logs, start, today);
    var after := Heatmap(logs', start, today);
    var expected := before[l.day := (if l.day in before then before[l.day] else 0) + l.amount];
    assert logs'[..|logs'| - 1] == logs;
    assert WindowDays(logs', start, today) == WindowDays(logs, start, today) + {l.day};
    if l.day !in before {
      DaySumNone(logs, l.day);
    }
    forall d | d in after ensures after[d] == expected[d] {
      assert DaySum(logs', d) == DaySum(logs, d) + (if l.day == d then l.amount else 0);
    }
    assert after.Keys == expected.Keys;
  }

  /** Two logs of 3 and 4 on one day of the window give that day a bucket of 7. */
  lemma HeatmapExample(d: Day, start: Day, today: Day, m1: Id, m2: Id)
    requires InWindow(d, start, today)
    ensures Heatmap([StudyLog(0, d, m1, 3), StudyLog(1, d, m2, 4)], start, today) == map[d := 7]
  {
    var l1, l2 := StudyLog(0, d, m1, 3), StudyLog(1, d, m2, 4);
    HeatmapAddsInside([], l1, start, today);
    assert [l1] + [l2] == [l1, l2];
    assert [] + [l1] == [l1];
    HeatmapAddsInside([l1], l2, start, today);
  }

  // ---------------------------------------------------------------
  // Today's amount
  // ---------------------------------------------------------------

  /** `todayAmount(for:)`: the sum of the material's logs dated today; zero without such a log. */
  function TodayAmount(logs: seq<StudyLog>, materialId: Id, today: Day): (amount: int)
    ensures (forall l :: l in logs ==> l.materialId != materialId || l.day != today) ==> amount == 0
  {
    var mine := Filter(logs, (l: StudyLog) => l.materialId == materialId && l.day == today);
    assert (forall l :: l in logs ==> l.materialId != materialId || l.day != today) ==> SumOf(mine, (l: StudyLog) => l.amount) == 0 by {
      if forall l :: l in logs ==> l.materialId != materialId || l.day != today {
        SumOfZero(mine, (l: StudyLog) => l.amount);
      }
    }
    SumOf(mine, (l: StudyLog) => l.amount)
  }

  /** One more log adds its amount exactly when it is the material's log of today. */
  lemma TodayAmountAppend(logs: seq<StudyLog>, l: StudyLog, materialId: Id, today: Day)
    ensures TodayAmount(logs + [l], materialId, today)
         == TodayAmount(logs, materialId, today) + (if l.materialId == materialId && l.day == today then l.amount else 0)
  {
    var p := (l: StudyLog) => l.materialId == materialId && l.day == today;
    var f := (l: StudyLog) => l.amount;
    FilterAppend(logs, [l], p);
    assert Filter([l], p) == (if p(l) then [l] else []) by {
      assert [l][..0] == [];
    }
    SumOfAppend(Filter(logs, p), Filter([l], p), f);
    if p(l) {
      assert SumOf([l], f) == l.amount by {
        assert [l][..0] == [];
      }
    }
  }

  /**
   * Today's amounts of the materials add up to the day's heatmap total when
   * every log of the day belongs to one of them: shown here for the logs of
   * a single material.
   */
  lemma TodayAmountIsDaySum(logs: seq<StudyLog>, materialId: Id, today: Day)
    requires forall l :: l in logs ==> l.materialId == materialId
    ensures TodayAmount(logs, materialId, today) == DaySum(logs, today)
    decreases |logs|
  {
    if logs != [] {
      var init := logs[..|logs| - 1];
      var last := logs[|logs| - 1];
      assert logs == init + [last];
      assert forall l :: l in init ==> l in logs;
      TodayAmountIsDaySum(init, materialId, today);
      TodayAmountAppend(init, last, materialId, today);
    }
  }
}
