/**
 * The calendar facts the app takes from Foundation, over integer day keys.
 *
 * A moment (`Instant`) counts seconds from a local midnight that began a
 * Monday; a `Day` counts days from that Monday, so day key 0 is a Monday.
 * Time zones and daylight-saving shifts are not modelled: every day has
 * 86400 seconds.
 */
module Calendar {

  type Instant = int
  type Day = int

  const SecondsPerDay: int := 86400

  /** `calendar.startOfDay(for: t)`, as the key of the day that contains `t`. */
  function StartOfDay(t: Instant): Day {
    t / SecondsPerDay
  }

  /** The first moment of day `d`. */
  function DayBegins(d: Day): Instant {
    d * SecondsPerDay
  }

  /** The day of `t` is the one whose span `[begin, next begin)` contains `t`. */
  lemma StartOfDayBounds(t: Instant)
    ensures DayBegins(StartOfDay(t)) <= t < DayBegins(StartOfDay(t) + 1)
  {
  }

  /** Any two moments within one day's span get that day's key. */
  lemma SameDaySameKey(t1: Instant, t2: Instant, d: Day)
    requires DayBegins(d) <= t1 < DayBegins(d + 1)
    requires DayBegins(d) <= t2 < DayBegins(d + 1)
    ensures StartOfDay(t1) == d && StartOfDay(t2) == d
  {
  }

  /** Normalising a moment that is already the start of a day changes nothing. */
  lemma StartOfDayIdempotent(t: Instant)
    ensures StartOfDay(DayBegins(StartOfDay(t))) == StartOfDay(t)
  {
  }

  /** `calendar.dateComponents([.day], from: a, to: b).day` between two day starts. */
  function DaysBetween(a: Day, b: Day): int {
    b - a
  }

  /** Foundation's weekday number: 1 = Sunday, 2 = Monday, …, 7 = Saturday. */
  function Weekday(d: Day): (w: int)
    ensures 1 <= w <= 7
    ensures w == 2 <==> d % 7 == 0
    ensures w == 1 <==> d % 7 == 6
  {
    if d % 7 == 6 then 1 else d % 7 + 2
  }

  /**
   * How far a day lies after the Monday of its Monday-first week, from its
   * weekday number: `(weekday == 1) ? 6 : weekday - 2`.
   */
  function DaysSinceMonday(weekday: int): int {
    if weekday == 1 then 6 else weekday - 2
  }

  /** The Monday on or before `d`, at most six days earlier. */
  function MondayOf(d: Day): (m: Day)
    ensures Weekday(m) == 2
    ensures d - 6 <= m <= d
  {
    d - DaysSinceMonday(Weekday(d))
  }

  /** There is only one Monday among the seven days ending at `d`. */
  lemma MondayOfUnique(d: Day, m: Day)
    requires Weekday(m) == 2 && d - 6 <= m <= d
    ensures m == MondayOf(d)
  {
  }

  /**
   * The day that `weeklyStudyDays` computes as "this week's Monday": the day
   * with weekday 2 inside the week (`weekOfYear`) that contains `d`, where the
   * locale's weeks begin on weekday `firstWeekday`.
   */
  function LocaleWeekMonday(d: Day, firstWeekday: int): Day
    requires 1 <= firstWeekday <= 7
  {
    var weekStart := d - (Weekday(d) - firstWeekday) % 7;
    weekStart + (2 - firstWeekday) % 7
  }

  /** In a locale whose weeks begin on Monday the computation finds the intended Monday. */
  lemma LocaleWeekMondayMondayFirst(d: Day)
    ensures LocaleWeekMonday(d, 2) == MondayOf(d)
  {
  }

  /** In a Sunday-first locale it also does, on every day except Sunday ... */
  lemma LocaleWeekMondaySundayFirst(d: Day)
    requires Weekday(d) != 1
    ensures LocaleWeekMonday(d, 1) == MondayOf(d)
  {
  }

  /** ... but on a Sunday it yields the following day, so "this week" lies wholly after today. */
  lemma LocaleWeekMondaySundayFirstOnSunday(d: Day)
    requires Weekday(d) == 1
    ensures LocaleWeekMonday(d, 1) == d + 1
    ensures MondayOf(d) == d - 6
  {
  }
}
