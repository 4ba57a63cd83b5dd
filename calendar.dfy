/** The month calendar of the daily challenge: the grid of a month (blank
    cells up to the first weekday, then one cell per day), month paging, and
    the colour of each day from the daily records. Days are numbered from
    1 January 1970 in the proleptic Gregorian calendar, as the records'
    dates are. Months are 0-based, as JavaScript's. */
module Calendar {
  import opened Common
  import opened DailyQuestion

  datatype YearMonth = YearMonth(year: int, month: int)

  predicate ValidMonth(ym: YearMonth)
  {
    0 <= ym.month < 12
  }

  /** `new Date(year, month - 1, 1)`: December of the year before January. */
  function Prev(ym: YearMonth): (r: YearMonth)
    requires ValidMonth(ym)
    ensures ValidMonth(r)
    ensures ym.month > 0 ==> r == YearMonth(ym.year, ym.month - 1)
    ensures ym.month == 0 ==> r == YearMonth(ym.year - 1, 11)
  {
    if ym.month == 0 then YearMonth(ym.year - 1, 11) else YearMonth(ym.year, ym.month - 1)
  }

  /** `new Date(year, month + 1, 1)`: January of the year after December. */
  function Next(ym: YearMonth): (r: YearMonth)
    requires ValidMonth(ym)
    ensures ValidMonth(r)
    ensures ym.month < 11 ==> r == YearMonth(ym.year, ym.month + 1)
    ensures ym.month == 11 ==> r == YearMonth(ym.year + 1, 0)
  {
    if ym.month == 11 then YearMonth(ym.year + 1, 0) else YearMonth(ym.year, ym.month + 1)
  }

  /** Paging back and forth returns to the same month. */
  lemma PagingInverse(ym: YearMonth)
    requires ValidMonth(ym)
    ensures Next(Prev(ym)) == ym && Prev(Next(ym)) == ym
  {
  }

  predicate Leap(year: int)
  {
    year % 4 == 0 && (year % 100 != 0 || year % 400 == 0)
  }

  /** `new Date(year, month + 1, 0).getDate()`. */
  function DaysInMonth(ym: YearMonth): (n: int)
    requires ValidMonth(ym)
    ensures 28 <= n <= 31
  {
    if ym.month == 1 then (if Leap(ym.year) then 29 else 28)
    else if ym.month in {3, 5, 8, 10} then 30
    else 31
  }

  /** Days from 1 March of year 0 to 1 March of year `y`. */
  function MarchDays(y: int): int
  {
    var era := y / 400;
    var yoe := y % 400;
    era * 146097 + yoe * 365 + yoe / 4 - yoe / 100
  }

  /** Days from 1 March to the first of a (0-based) month, in a year that
      starts in March. */
  function MonthOffset(month: int): int
    requires 0 <= month < 12
  {
    [306, 337, 0, 31, 61, 92, 122, 153, 184, 214, 245, 275][month]
  }

  /** The day number of a date: days since 1 January 1970. */
  function DayNumber(ym: YearMonth, day: int): int
    requires ValidMonth(ym)
  {
    var y := if ym.month < 2 then ym.year - 1 else ym.year;
    MarchDays(y) + MonthOffset(ym.month) + day - 1 - 719468
  }

  /** `getDay()` of a day number: 0 is Sunday (1 January 1970 was a
      Thursday). */
  function Weekday(dayNumber: int): (w: int)
    ensures 0 <= w < 7
  {
    (dayNumber + 4) % 7
  }

  /** A year that starts in March has 365 days, plus one when the following
      February is a leap one. */
  lemma MarchYear(y: int)
    ensures MarchDays(y + 1) == MarchDays(y) + 365 + (if Leap(y + 1) then 1 else 0)
  {
    var era, yoe := y / 400, y % 400;
    if yoe == 399 {
      EraEnd(y, era);
    } else {
      WithinEra(y, era, yoe);
    }
  }

  lemma EraEnd(y: int, era: int)
    requires y == 400 * era + 399
    ensures MarchDays(y + 1) == MarchDays(y) + 366 && Leap(y + 1)
  {
    assert y / 400 == era && y % 400 == 399;
    assert (y + 1) / 400 == era + 1 && (y + 1) % 400 == 0;
  }

  lemma {:induction false} WithinEra(y: int, era: int, yoe: int)
    requires y == 400 * era + yoe && 0 <= yoe < 399
    ensures MarchDays(y + 1) == MarchDays(y) + 365 + (if Leap(y + 1) then 1 else 0)
  {
    assert y / 400 == era && y % 400 == yoe;
    assert (y + 1) / 400 == era && (y + 1) % 400 == yoe + 1;
    FloorStep(yoe);
    assert (y + 1) % 4 == (yoe + 1) % 4 by {
      assert y + 1 == 4 * (100 * era) + (yoe + 1);
    }
    assert (y + 1) % 100 == (yoe + 1) % 100 by {
      assert y + 1 == 100 * (4 * era) + (yoe + 1);
    }
  }

  /** Floor division steps up by one exactly at multiples. */
  lemma FloorStep(x: int)
    ensures (x + 1) / 4 == x / 4 + (if (x + 1) % 4 == 0 then 1 else 0)
    ensures (x + 1) / 100 == x / 100 + (if (x + 1) % 100 == 0 then 1 else 0)
  {
  }

  /** The day after a month's last day is the first of the next month. */
  lemma MonthsAdjoin(ym: YearMonth)
    requires ValidMonth(ym)
    ensures DayNumber(Next(ym), 1) == DayNumber(ym, DaysInMonth(ym)) + 1
  {
    if ym.month == 1 {
      MarchYear(ym.year - 1);
    }
  }

  /** The days of a month are consecutive day numbers. */
  lemma DaysConsecutive(ym: YearMonth, d: int, k: int)
    requires ValidMonth(ym)
    ensures DayNumber(ym, d + k) == DayNumber(ym, d) + k
  {
  }

  /** The 1st of January 1970 is day 0, and 1 March 2000 is day 11017. */
  lemma DayNumberAnchors()
    ensures DayNumber(YearMonth(1970, 0), 1) == 0
    ensures DayNumber(YearMonth(2000, 2), 1) == 11017
  {
  }

  /** A date of the calendar: a month and a day within it. */
  predicate ValidDate(ym: YearMonth, day: int)
  {
    ValidMonth(ym) && 1 <= day <= DaysInMonth(ym)
  }

  /** Months counted from year 0. */
  function MonthIndex(ym: YearMonth): int
  {
    12 * ym.year + ym.month
  }

  /** A later month starts after an earlier month has ended. */
  lemma {:induction false} LaterMonthLater(a: YearMonth, b: YearMonth)
    requires ValidMonth(a) && ValidMonth(b) && MonthIndex(a) < MonthIndex(b)
    ensures DayNumber(a, DaysInMonth(a)) < DayNumber(b, 1)
    decreases MonthIndex(b) - MonthIndex(a)
  {
    MonthsAdjoin(a);
    if MonthIndex(Next(a)) < MonthIndex(b) {
      LaterMonthLater(Next(a), b);
      DaysConsecutive(Next(a), 1, DaysInMonth(Next(a)) - 1);
    } else {
      assert Next(a) == b;
    }
  }

  /** `isToday`: day, month and year all match. */
  predicate IsToday(ym: YearMonth, day: int, today: YearMonth, todayDay: int)
  {
    day == todayDay && ym.month == today.month && ym.year == today.year
  }

  /** Matching day, month and year is the same as naming the same day
      number: distinct calendar dates have distinct day numbers. */
  lemma IsTodaySameDay(ym: YearMonth, day: int, today: YearMonth, todayDay: int)
    requires ValidDate(ym, day) && ValidDate(today, todayDay)
    ensures IsToday(ym, day, today, todayDay) <==> DayNumber(ym, day) == DayNumber(today, todayDay)
  {
    if MonthIndex(ym) < MonthIndex(today) {
      LaterMonthLater(ym, today);
      DaysConsecutive(ym, day, DaysInMonth(ym) - day);
      DaysConsecutive(today, 1, todayDay - 1);
    } else if MonthIndex(today) < MonthIndex(ym) {
      LaterMonthLater(today, ym);
      DaysConsecutive(today, todayDay, DaysInMonth(today) - todayDay);
      DaysConsecutive(ym, 1, day - 1);
    } else {
      assert ym == today;
    }
  }

  /** The grid: `Weekday` of the 1st blank cells, then the month's days. */
  function Grid(ym: YearMonth): (g: seq<Option<int>>)
    requires ValidMonth(ym)
  {
    var first := Weekday(DayNumber(ym, 1));
    seq(first, i => None) + seq(DaysInMonth(ym), i requires 0 <= i => Some(DayNumber(ym, i + 1)))
  }

  /** The grid puts every day of the month under its weekday column, once,
      in order, after blank cells only. */
  lemma GridColumns(ym: YearMonth)
    requires ValidMonth(ym)
    ensures var g := Grid(ym);
            var first := Weekday(DayNumber(ym, 1));
            |g| == first + DaysInMonth(ym) && first < 7
            && (forall i :: 0 <= i < first ==> g[i].None?)
            && (forall k :: 1 <= k <= DaysInMonth(ym) ==> g[first + k - 1] == Some(DayNumber(ym, k)))
            && (forall i :: first <= i < |g| ==> g[i].Some? && Weekday(g[i].value) == i % 7)
  {
    var g := Grid(ym);
    var first := Weekday(DayNumber(ym, 1));
    forall i | first <= i < |g|
      ensures g[i].Some? && Weekday(g[i].value) == i % 7
    {
      DaysConsecutive(ym, 1, i - first);
      ShiftWeekday(DayNumber(ym, 1), i - first);
    }
  }

  /** Counting k days on from a day moves its weekday k columns on. */
  lemma ShiftWeekday(n: int, k: int)
    ensures Weekday(n + k) == (Weekday(n) + k) % 7
  {
    var q := (n + 4) / 7;
    assert n + 4 == 7 * q + Weekday(n);
    assert n + k + 4 == 7 * q + (Weekday(n) + k);
  }

  /** The grid effect: blank cells, then the month's days. */
  method BuildGrid(ym: YearMonth) returns (days: seq<Option<int>>)
    requires ValidMonth(ym)
    ensures days == Grid(ym)
  {
    var first := Weekday(DayNumber(ym, 1));
    var last := DaysInMonth(ym);
    days := [];
    var i := 0;
    while i < first
      invariant 0 <= i <= first
      invariant days == seq(i, j => None)
    {
      days := days + [None];
      i := i + 1;
    }
    var d := 1;
    while d <= last
      invariant 1 <= d <= last + 1
      invariant days == seq(first, j => None) + seq(d - 1, j requires 0 <= j => Some(DayNumber(ym, j + 1)))
    {
      days := days + [Some(DayNumber(ym, d))];
      d := d + 1;
    }
  }

  /** `getDateStatus`: the first record of the day decides; `None` when
      there is none or it is unanswered, else whether it was correct. */
  function DayStatus(h: seq<DailyRecord>, day: int): (r: Option<bool>)
    ensures r.Some? ==> exists i :: 0 <= i < |h| && h[i].date == day && h[i].answered && h[i].correct == r.value
    ensures (forall i :: 0 <= i < |h| ==> h[i].date != day) ==> r.None?
  {
    match FindDay(h, day)
    case None => None
    case Some(i) => if h[i].answered then Some(h[i].correct) else None
  }

  lemma {:induction false} FindDaySameDates(h: seq<DailyRecord>, h': seq<DailyRecord>, day: int)
    requires |h| == |h'| && forall i :: 0 <= i < |h| ==> h[i].date == h'[i].date
    ensures FindDay(h, day) == FindDay(h', day)
  {
    if h != [] {
      FindDaySameDates(h[1..], h'[1..], day);
    }
  }

  /** Answering today colours today's cell by the answer and leaves every
      other day as it was. */
  lemma AnsweredDayStatus(h: seq<DailyRecord>, today: int, isCorrect: bool, other: int)
    requires other != today
    ensures FindDay(h, today).Some? ==> DayStatus(MarkAnswered(h, today, isCorrect), today) == Some(isCorrect)
    ensures DayStatus(MarkAnswered(h, today, isCorrect), other) == DayStatus(h, other)
  {
    var r := MarkAnswered(h, today, isCorrect);
    MarkAnsweredKeepsDates(h, today, isCorrect);
    FindDaySameDates(h, r, today);
    FindDaySameDates(h, r, other);
  }

  /** The calendar component: the month shown and its grid. */
  class MonthView {
    var currentMonth: YearMonth
    var calendarDays: seq<Option<int>>

    predicate Valid()
      reads this
    {
      ValidMonth(currentMonth)
    }

    /** Opens on the current month, with an empty grid until the effect runs. */
    constructor (today: YearMonth)
      requires ValidMonth(today)
      ensures Valid() && currentMonth == today && calendarDays == []
    {
      currentMonth := today;
      calendarDays := [];
    }

    method Regenerate()
      requires Valid()
      modifies this
      ensures Valid() && currentMonth == old(currentMonth)
      ensures calendarDays == Grid(currentMonth)
    {
      calendarDays := BuildGrid(currentMonth);
    }

    method PrevMonth()
      requires Valid()
      modifies this
      ensures Valid() && currentMonth == Prev(old(currentMonth))
      ensures calendarDays == old(calendarDays)
    {
      currentMonth := Prev(currentMonth);
    }

    method NextMonth()
      requires Valid()
      modifies this
      ensures Valid() && currentMonth == Next(old(currentMonth))
      ensures calendarDays == old(calendarDays)
    {
      currentMonth := Next(currentMonth);
    }
  }
}
