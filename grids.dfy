/**
 * The two day grids: the heatmap's columns of Monday-first weeks ending
 * today (`HeatmapView`), and the month sheet with its blanks before the
 * first day and after the last (`StudyCalendarView`), with the month sheet's
 * day cells and its navigation between months.
 *
 * Month arithmetic is the calendar's: the window's raw start (today less
 * some months), a month's first day and length, and the date one month on
 * or back are given as parameters.
 */
module Grids {
  import opened Prelude
  import opened Numerics
  import opened Calendar
  import opened Models
  import opened DaySets

  /** The heatmap's default window, in months. */
  const DefaultHeatmapMonths: int := 4

  // ---------------------------------------------------------------
  // The heatmap grid
  // ---------------------------------------------------------------

  /** `dateRange`'s start: the raw start moved back to its Monday. */
  function GridStart(rawStart: Day): Day {
    rawStart - DaysSinceMonday(Weekday(rawStart))
  }

  /** The grid starts on a Monday at most six days before the raw start. */
  lemma GridStartIsMonday(rawStart: Day)
    ensures Weekday(GridStart(rawStart)) == 2
    ensures rawStart - 6 <= GridStart(rawStart) <= rawStart
    ensures GridStart(rawStart) == MondayOf(rawStart)
  {
  }

  /** Slot `j` of row `i` of the grid from `start` to `end`: its day, or blank past the end. */
  function Slot(start: Day, end: Day, i: int, j: int): Option<Day> {
    if start + 7 * i + j <= end then Some(start + 7 * i + j) else None
  }

  /**
   * `weeks`: rows of seven slots filled day by day from `start`; once the
   * days pass `end` the rest of the row is blank and no row follows.
   */
  method Weeks(start: Day, end: Day) returns (rows: seq<seq<Option<Day>>>)
    ensures forall i :: 0 <= i < |rows| ==> |rows[i]| == 7
    ensures forall i, j :: 0 <= i < |rows| && 0 <= j < 7 ==> rows[i][j] == Slot(start, end, i, j)
    ensures start <= end ==> start + 7 * (|rows| - 1) <= end < start + 7 * |rows|
    ensures start > end ==> rows == []
  {
    rows := [];
    var current := start;
    while current <= end
      invariant |rows| == 0 ==> current == start
      invariant |rows| > 0 ==> start + 7 * (|rows| - 1) <= end
      invariant |rows| > 0 ==> current == if start + 7 * |rows| <= end + 1 then start + 7 * |rows| else end + 1
      invariant forall i :: 0 <= i < |rows| ==> |rows[i]| == 7
      invariant forall i, j :: 0 <= i < |rows| && 0 <= j < 7 ==> rows[i][j] == Slot(start, end, i, j)
      decreases end - current
    {
      var week: seq<Option<Day>> := [];
      for k := 0 to 7
        invariant |week| == k
        invariant current == if start + 7 * |rows| + k <= end + 1 then start + 7 * |rows| + k else end + 1
        invariant forall j :: 0 <= j < k ==> week[j] == Slot(start, end, |rows|, j)
      {
        if current <= end {
          week := week + [Some(current)];
          current := current + 1;
        } else {
          week := week + [None];
        }
      }
      rows := rows + [week];
    }
  }

  /** Every day of the window has its slot: row `(d - start) / 7`, column `(d - start) % 7`. */
  lemma SlotOfDay(start: Day, end: Day, n: int, d: Day)
    requires start <= d <= end < start + 7 * n
    ensures 0 <= (d - start) / 7 < n
    ensures Slot(start, end, (d - start) / 7, (d - start) % 7) == Some(d)
  {
    var q, r := (d - start) / 7, (d - start) % 7;
    assert d - start == 7 * q + r;
    assert 7 * q < 7 * n;
  }

  /** A blank slot lies past `end`, so in the last row only. */
  lemma BlankInLastRow(start: Day, end: Day, n: int, i: int, j: int)
    requires start + 7 * (n - 1) <= end
    requires 0 <= i < n && 0 <= j < 7 && Slot(start, end, i, j).None?
    ensures i == n - 1
  {
    assert 7 * i > 7 * (n - 2);
  }

  /** Two slots showing the same day are the same slot. */
  lemma SlotsDistinct(start: Day, end: Day, i: int, j: int, i': int, j': int)
    requires 0 <= j < 7 && 0 <= j' < 7
    requires Slot(start, end, i, j).Some? && Slot(start, end, i, j) == Slot(start, end, i', j')
    ensures i == i' && j == j'
  {
    assert 7 * (i - i') == j' - j;
  }

  /**
   * The grid shows the window exactly: every day from `start` to `end`
   * has a slot, no two slots show the same day, blanks fall only in the last
   * row, and there are `ceil((end - start + 1) / 7)` rows.
   */
  lemma SlotsCoverWindow(start: Day, end: Day, n: int)
    requires start <= end && start + 7 * (n - 1) <= end < start + 7 * n
    ensures n == CeilDiv(end - start + 1, 7)
    ensures forall d :: start <= d <= end ==> 0 <= (d - start) / 7 < n && Slot(start, end, (d - start) / 7, (d - start) % 7) == Some(d)
    ensures forall i, j :: 0 <= i < n && 0 <= j < 7 && Slot(start, end, i, j).None? ==> i == n - 1
    ensures forall i, j, i', j' :: 0 <= j < 7 && 0 <= j' < 7 && Slot(start, end, i, j).Some? && Slot(start, end, i, j) == Slot(start, end, i', j') ==>
      i == i' && j == j'
  {
    CeilDivUnique(end - start + 1, 7, n);
    forall d | start <= d <= end
      ensures 0 <= (d - start) / 7 < n && Slot(start, end, (d - start) / 7, (d - start) % 7) == Some(d)
    {
      SlotOfDay(start, end, n, d);
    }
    forall i, j | 0 <= i < n && 0 <= j < 7 && Slot(start, end, i, j).None?
      ensures i == n - 1
    {
      BlankInLastRow(start, end, n, i, j);
    }
    forall i, j, i', j' | 0 <= j < 7 && 0 <= j' < 7 && Slot(start, end, i, j).Some? && Slot(start, end, i, j) == Slot(start, end, i', j')
      ensures i == i' && j == j'
    {
      SlotsDistinct(start, end, i, j, i', j');
    }
  }

  /** On a grid that starts on a Monday, slot `j` of every row holds the `j`-th day of the week (Monday = 0). */
  lemma SlotWeekday(start: Day, end: Day, i: int, j: int)
    requires Weekday(start) == 2 && 0 <= j < 7
    requires Slot(start, end, i, j).Some?
    ensures DaysSinceMonday(Weekday(Slot(start, end, i, j).value)) == j
  {
    var d := start + 7 * i + j;
    assert d % 7 == j by {
      assert d == 7 * (start / 7 + i) + j;
    }
  }

  // ---------------------------------------------------------------
  // The month sheet
  // ---------------------------------------------------------------

  /** The first multiple of 7 not below `m`. */
  function PadTarget(m: nat): (t: nat)
    ensures t % 7 == 0 && m <= t < m + 7
  {
    m + (7 - m % 7) % 7
  }

  /** No multiple of 7 lies between `m` and its pad target. */
  lemma PadTargetFirst(m: nat, x: int)
    requires m <= x && x % 7 == 0
    ensures PadTarget(m) <= x
  {
    var a, b := x / 7, m / 7;
    assert x == 7 * a && m == 7 * b + m % 7;
    if m % 7 != 0 {
      assert 7 * b < 7 * a;
    }
  }

  /**
   * `daysInMonth`: blanks up to the first day's place in a Monday-first
   * week, the month's `n` days in order, then blanks to fill the last week.
   */
  method DaysInMonth(firstDay: Day, n: nat) returns (days: seq<Option<Day>>)
    ensures var offset := DaysSinceMonday(Weekday(firstDay));
      && 0 <= offset <= 6
      && |days| % 7 == 0 && offset + n <= |days| < offset + n + 7
      && (forall k :: 0 <= k < offset ==> days[k] == None)
      && (forall k :: offset <= k < offset + n ==> days[k] == Some(firstDay + (k - offset)))
      && (forall k :: offset + n <= k < |days| ==> days[k] == None)
  {
    var offset := DaysSinceMonday(Weekday(firstDay));
    days := seq(offset, _ => None);
    for day := 1 to n + 1
      invariant |days| == offset + day - 1
      invariant forall k :: 0 <= k < offset ==> days[k] == None
      invariant forall k :: offset <= k < |days| ==> days[k] == Some(firstDay + (k - offset))
    {
      days := days + [Some(firstDay + (day - 1))];
    }
    ghost var target := PadTarget(offset + n);
    while |days| % 7 != 0
      invariant offset + n <= |days| <= target
      invariant forall k :: 0 <= k < offset ==> days[k] == None
      invariant forall k :: offset <= k < offset + n ==> days[k] == Some(firstDay + (k - offset))
      invariant forall k :: offset + n <= k < |days| ==> days[k] == None
      decreases target - |days|
    {
      days := days + [None];
    }
    PadTargetFirst(offset + n, |days|);
  }

  /** On the month sheet every day sits in the column of its weekday (Monday = 0). */
  lemma MonthDayColumn(firstDay: Day, n: nat, k: int)
    requires var offset := DaysSinceMonday(Weekday(firstDay)); offset <= k < offset + n
    ensures var offset := DaysSinceMonday(Weekday(firstDay));
      k % 7 == DaysSinceMonday(Weekday(firstDay + (k - offset)))
  {
    var offset := DaysSinceMonday(Weekday(firstDay));
    assert offset == firstDay % 7;
    var d := firstDay + (k - offset);
    assert d % 7 == k % 7 by {
      assert d == 7 * (firstDay / 7) + k;
    }
  }

  /** `studyAmount(for:)`: the day's heatmap bucket, 0 when it has none. */
  function StudyAmount(heatmap: map<Day, int>, d: Day): int {
    if d in heatmap then heatmap[d] else 0
  }

  /**
   * On the heatmap of the home screen a day of the window shows the total
   * logged that day, and a day outside it shows 0.
   */
  lemma StudyAmountIsDaySum(logs: seq<StudyLog>, start: Day, today: Day, d: Day)
    ensures InWindow(d, start, today) ==> StudyAmount(Heatmap(logs, start, today), d) == DaySum(logs, d)
    ensures !InWindow(d, start, today) ==> StudyAmount(Heatmap(logs, start, today), d) == 0
  {
    assert forall l :: l in logs && InWindow(l.day, start, today) ==> l.day in WindowDays(logs, start, today);
    if InWindow(d, start, today) && d !in Heatmap(logs, start, today) {
      DaySumNone(logs, d);
    }
  }

  /** `isFuture`: the day lies after today. */
  predicate IsFuture(d: Day, today: Day) {
    d > today
  }

  /** A tap on a day cell: the day is handed on (to open its log sheet) unless it lies in the future. */
  function TapDay(d: Day, today: Day): (r: Option<Day>)
    ensures r.Some? <==> d <= today
    ensures r.Some? ==> r.value == d
  {
    if !IsFuture(d, today) then Some(d) else None
  }

  /**
   * The month navigation: `displayedMonth` is a date within the shown
   * month; a forward tap moves one month on only when that date is not after
   * today, a back tap always moves one month back, and a horizontal drag
   * does either by its own test (`SwipedMonth`).
   */
  class MonthNavigator {
    var displayedMonth: Instant

    /** The sheet opens on the month of `now`. */
    constructor (now: Instant)
      ensures displayedMonth == now
    {
      displayedMonth := now;
    }

    /** The forward button is disabled when the next month's first day lies after today. */
    static predicate ForwardEnabled(nextMonthStart: Day, today: Day) {
      !(nextMonthStart > today)
    }

    /**
     * The forward tap: `nextMonth` is the displayed date one month on.
     * A tap only ever moves the displayed date to a day not after today
     * (a swipe can pass it: `SwipePassesToday`).
     */
    method Forward(nextMonth: Instant, today: Day)
      modifies this
      ensures displayedMonth == if StartOfDay(nextMonth) <= today then nextMonth else old(displayedMonth)
      ensures displayedMonth != old(displayedMonth) ==> StartOfDay(displayedMonth) <= today
    {
      if StartOfDay(nextMonth) <= today {
        displayedMonth := nextMonth;
      }
    }

    /**
     * The end of a horizontal drag on the calendar, with the month moves
     * given as in `Forward` and `Back`; `nextMonthStart` is the first day of
     * the month of `nextMonth`.
     */
    method Swipe(width: int, nextMonth: Instant, nextMonthStart: Day, previousMonth: Instant, today: Day)
      modifies this
      ensures displayedMonth == SwipedMonth(width, old(displayedMonth), nextMonth, nextMonthStart, previousMonth, today)
    {
      if width < -50 {
        if nextMonthStart <= today {
          displayedMonth := nextMonth;
        }
      } else if width > 50 {
        displayedMonth := previousMonth;
      }
    }

    /** The back tap: `previousMonth` is the displayed date one month back; always taken. */
    method Back(previousMonth: Instant)
      modifies this
      ensures displayedMonth == previousMonth
    {
      displayedMonth := previousMonth;
    }
  }

  /**
   * Where a horizontal drag of `width` points leaves the displayed date: a
   * drag more than 50 points to the left moves one month on when the next
   * month's first day `nextMonthStart` is not after today, one more than 50
   * points to the right moves one month back, and a shorter one does
   * nothing. Unlike the forward button it tests the month's first day, not
   * the date it moves to.
   */
  function SwipedMonth(width: int, displayed: Instant, nextMonth: Instant, nextMonthStart: Day,
                       previousMonth: Instant, today: Day): (r: Instant)
    ensures -50 <= width <= 50 ==> r == displayed
    ensures width > 50 ==> r == previousMonth
    ensures width < -50 && nextMonthStart > today ==> r == displayed
    ensures r != displayed && width <= 50 ==> width < -50 && r == nextMonth && nextMonthStart <= today
  {
    if width < -50 then
      if nextMonthStart <= today then nextMonth else displayed
    else if width > 50 then previousMonth
    else displayed
  }

  /**
   * The swipe can carry the displayed date past today where the forward
   * button would not: with today on the 19th of a month and the 25th of the
   * month before shown, the next month's first day lies before today, so the
   * button is enabled and a left swipe moves to the 25th, six days ahead,
   * while the button's own test rejects that date.
   */
  lemma SwipePassesToday()
    ensures var today, nextMonthStart, nextMonth := 291, 273, DayBegins(297);
      && MonthNavigator.ForwardEnabled(nextMonthStart, today)
      && !(StartOfDay(nextMonth) <= today)
      && StartOfDay(SwipedMonth(-100, DayBegins(267), nextMonth, nextMonthStart, DayBegins(236), today)) > today
  {
    assert StartOfDay(DayBegins(297)) == 297;
  }
}
