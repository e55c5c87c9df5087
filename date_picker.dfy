/**
 * The calendar date picker (src/components/DatePicker.tsx): the month it
 * shows, the cells of that month's grid, and the "YYYY-MM-DD" value it
 * emits. Months are 0-based (January is 0), as in JavaScript's `Date`.
 */
module DatePicker {
  import opened Wrappers
  import opened TimeGrid

  // ---------------------------------------------------------------------
  // The Gregorian calendar, as `new Date(year, month, day)` computes it

  /**
   * The full year `new Date(year, ...)` uses: a year from 0 to 99 is taken
   * as 1900 + year.
   */
  function JsYear(year: int): (y: int)
    ensures 0 <= year <= 99 ==> y == 1900 + year
    ensures !(0 <= year <= 99) ==> y == year
  {
    if 0 <= year <= 99 then 1900 + year else year
  }

  predicate IsLeapYear(y: int) {
    (y % 4 == 0 && y % 100 != 0) || y % 400 == 0
  }

  /** `getDaysInMonth`: the day before the first of the next month, i.e. the length of the month. */
  function DaysInMonth(month: int, year: int): (n: int)
    requires 0 <= month <= 11
    ensures 28 <= n <= 31
    ensures month == 1 ==> (n == 29 <==> IsLeapYear(JsYear(year)))
    ensures month in {3, 5, 8, 10} <==> n == 30
    ensures month == 1 ==> n == (if IsLeapYear(JsYear(year)) then 29 else 28)
    ensures month !in {1, 3, 5, 8, 10} ==> n == 31
  {
    if month == 1 then (if IsLeapYear(JsYear(year)) then 29 else 28)
    else if month in {3, 5, 8, 10} then 30
    else 31
  }

  function MonthsTotal(year: int, k: nat): int
    requires k <= 12
  {
    if k == 0 then 0 else MonthsTotal(year, k - 1) + DaysInMonth(k - 1, year)
  }

  /** The twelve month lengths add up to the length of the year. */
  lemma YearLength(year: int)
    ensures MonthsTotal(year, 12) == if IsLeapYear(JsYear(year)) then 366 else 365
  {
    var feb := DaysInMonth(1, year);
    assert MonthsTotal(year, 0) == 0;
    assert MonthsTotal(year, 1) == MonthsTotal(year, 0) + 31;
    assert MonthsTotal(year, 2) == MonthsTotal(year, 1) + feb;
    assert MonthsTotal(year, 3) == MonthsTotal(year, 2) + 31;
    assert MonthsTotal(year, 4) == MonthsTotal(year, 3) + 30;
    assert MonthsTotal(year, 5) == MonthsTotal(year, 4) + 31;
    assert MonthsTotal(year, 6) == MonthsTotal(year, 5) + 30;
    assert MonthsTotal(year, 7) == MonthsTotal(year, 6) + 31;
    assert MonthsTotal(year, 8) == MonthsTotal(year, 7) + 31;
    assert MonthsTotal(year, 9) == MonthsTotal(year, 8) + 30;
    assert MonthsTotal(year, 10) == MonthsTotal(year, 9) + 31;
    assert MonthsTotal(year, 11) == MonthsTotal(year, 10) + 30;
    assert MonthsTotal(year, 12) == MonthsTotal(year, 11) + 31;
  }

  /**
   * `getFirstDayOfMonth`: the weekday (0 is Sunday) of the first day of the
   * month, by Zeller's congruence on the proleptic Gregorian calendar.
   */
  function FirstDayOfMonth(month: int, year: int): (d: int)
    requires 0 <= month <= 11
    ensures 0 <= d <= 6
  {
    var y := JsYear(year);
    // Zeller counts January and February as months 13 and 14 of the previous year.
    var m := if month < 2 then month + 13 else month + 1;
    var yy := if month < 2 then y - 1 else y;
    var k := yy % 100;
    var j := yy / 100;
    var h := (1 + (13 * (m + 1)) / 5 + k + k / 4 + j / 4 + 5 * j) % 7;
    // Zeller's 0 is Saturday; `getDay`'s 0 is Sunday.
    (h + 6) % 7
  }

  /** Known first days: 1 January 2024 was a Monday, 1 March 2024 a Friday, 1 February 2000 a Tuesday. */
  lemma FirstDayExamples()
    ensures FirstDayOfMonth(0, 2024) == 1
    ensures FirstDayOfMonth(2, 2024) == 5
    ensures FirstDayOfMonth(1, 2000) == 2
  {
    // January 2024 is month 13 of 2023: h = (1 + 36 + 23 + 5 + 5 + 100) % 7 = 2.
    assert JsYear(2024) == 2024 && 2023 % 100 == 23 && 2023 / 100 == 20;
    assert (1 + (13 * 14) / 5 + 23 + 23 / 4 + 20 / 4 + 5 * 20) % 7 == 2;
    // March 2024 is month 3 of 2024: h = (1 + 10 + 24 + 6 + 5 + 100) % 7 = 6.
    assert 2024 % 100 == 24 && 2024 / 100 == 20;
    assert (1 + (13 * 4) / 5 + 24 + 24 / 4 + 20 / 4 + 5 * 20) % 7 == 6;
    // February 2000 is month 14 of 1999: h = (1 + 39 + 99 + 24 + 4 + 95) % 7 = 3.
    assert JsYear(2000) == 2000 && 1999 % 100 == 99 && 1999 / 100 == 19;
    assert (1 + (13 * 15) / 5 + 99 + 99 / 4 + 19 / 4 + 5 * 19) % 7 == 3;
  }

  // ---------------------------------------------------------------------
  // The emitted value

  /** `String(n).padStart(2, '0')`. */
  function PadStart2(n: nat): (s: string)
    ensures n <= 99 ==> s == Pad2(n)
  {
    if n < 10 then Pad2(n) else if n <= 99 then Pad2(n) else NatToString(n)
  }

  /** `${year}`: the decimal text, with a '-' for a negative year. */
  function YearText(year: int): string {
    if year < 0 then "-" + NatToString(-year) else NatToString(year)
  }

  /** `handleDateClick`: `YYYY-MM-DD` with the 1-based month and the day zero-padded. */
  function FormatDate(year: int, month: int, day: nat): (s: string)
    requires 0 <= month <= 11
  {
    YearText(year) + "-" + PadStart2(month + 1) + "-" + PadStart2(day)
  }

  /** Digits, a dash, two digits, a dash, two digits. */
  predicate DateShape(s: string) {
    |s| >= 7 && s[|s| - 6] == '-' && s[|s| - 3] == '-'
    && (forall i :: 0 <= i < |s| - 6 ==> IsDigit(s[i]))
    && IsDigit(s[|s| - 5]) && IsDigit(s[|s| - 4]) && IsDigit(s[|s| - 2]) && IsDigit(s[|s| - 1])
  }

  /** Reads the emitted text of a non-negative year back: year, 0-based month, day. */
  function ParseDate(s: string): (r: Option<(int, int, int)>)
  {
    if DateShape(s) then Some((ParseNat(s[..|s| - 6]), ParseNat(s[|s| - 5..|s| - 3]) - 1, ParseNat(s[|s| - 2..])))
    else None
  }

  lemma Pad2Parse(n: int)
    requires 0 <= n <= 99
    ensures ParseNat(Pad2(n)) == n
  {
    var s := Pad2(n);
    assert s[..1] == [s[0]];
    assert ParseNat(s[..1]) == DigitValue(s[0]);
    assert DigitValue(s[0]) == n / 10 && DigitValue(s[1]) == n % 10;
  }

  /**
   * For a year from 0 on, the emitted text has the fixed "-MM-DD" tail and
   * reads back as the clicked date, so different dates give different texts.
   */
  lemma FormatDateRoundTrip(year: nat, month: int, day: int)
    requires 0 <= month <= 11 && 1 <= day <= 31
    ensures var s := FormatDate(year, month, day);
      |s| >= 7 && s[|s| - 6] == '-' && s[|s| - 3] == '-'
    ensures ParseDate(FormatDate(year, month, day)) == Some((year, month, day))
  {
    assert FormatDate(year, month, day) == NatToString(year) + "-" + Pad2(month + 1) + "-" + Pad2(day);
    ParseDateOf(NatToString(year), Pad2(month + 1), Pad2(day));
    NatRoundTrip(year);
    Pad2Parse(month + 1);
    Pad2Parse(day);
  }

  lemma TwoDigits(d: string)
    requires |d| == 2 && IsDigit(d[0]) && IsDigit(d[1])
    ensures forall i :: 0 <= i < |d| ==> IsDigit(d[i])
  {
    forall i | 0 <= i < |d| ensures IsDigit(d[i]) {
      if i == 0 {
        assert d[i] == d[0];
      } else {
        assert d[i] == d[1];
      }
    }
  }

  /** A digit string, a dash, two digits, a dash and two digits read back as their three numbers. */
  lemma ParseDateOf(y: string, mm: string, dd: string)
    requires |y| > 0 && forall i :: 0 <= i < |y| ==> IsDigit(y[i])
    requires |mm| == 2 && IsDigit(mm[0]) && IsDigit(mm[1])
    requires |dd| == 2 && IsDigit(dd[0]) && IsDigit(dd[1])
    ensures var s := y + "-" + mm + "-" + dd;
      |s| >= 7 && s[|s| - 6] == '-' && s[|s| - 3] == '-'
      && ParseDate(s) == Some((ParseNat(y), ParseNat(mm) - 1, ParseNat(dd)))
  {
    var s := y + "-" + mm + "-" + dd;
    TwoDigits(mm);
    TwoDigits(dd);
    var n := |y|;
    assert |s| == n + 6;
    assert s[n] == '-' && s[n + 1] == mm[0] && s[n + 2] == mm[1] && s[n + 3] == '-' && s[n + 4] == dd[0] && s[n + 5] == dd[1];
    assert forall i :: 0 <= i < n ==> s[i] == y[i];
    assert s[..|s| - 6] == y;
    assert s[|s| - 5..|s| - 3] == mm;
    assert s[|s| - 2..] == dd;
    assert DateShape(s);
    assert ParseDate(s).Some?;
    assert ParseDate(s).value.0 == ParseNat(y);
    assert ParseDate(s).value.1 == ParseNat(mm) - 1;
    assert ParseDate(s).value.2 == ParseNat(dd);
  }

  /** Different clicked dates emit different texts. */
  lemma FormatDateInjective(y1: nat, m1: int, d1: int, y2: nat, m2: int, d2: int)
    requires 0 <= m1 <= 11 && 1 <= d1 <= 31 && 0 <= m2 <= 11 && 1 <= d2 <= 31
    requires FormatDate(y1, m1, d1) == FormatDate(y2, m2, d2)
    ensures y1 == y2 && m1 == m2 && d1 == d2
  {
    FormatDateRoundTrip(y1, m1, d1);
    FormatDateRoundTrip(y2, m2, d2);
  }

  // ---------------------------------------------------------------------
  // Month navigation

  /** `handlePrevMonth` on (month, year): January steps back to December of the previous year. */
  function PrevMonth(month: int, year: int): (r: (int, int))
    requires 0 <= month <= 11
    ensures 0 <= r.0 <= 11
    ensures r.1 * 12 + r.0 == year * 12 + month - 1
  {
    if month == 0 then (11, year - 1) else (month - 1, year)
  }

  /** `handleNextMonth` on (month, year): December steps on to January of the next year. */
  function NextMonth(month: int, year: int): (r: (int, int))
    requires 0 <= month <= 11
    ensures 0 <= r.0 <= 11
    ensures r.1 * 12 + r.0 == year * 12 + month + 1
  {
    if month == 11 then (0, year + 1) else (month + 1, year)
  }

  /** Going back a month undoes going forward, and the other way round. */
  lemma PrevNextInverse(month: int, year: int)
    requires 0 <= month <= 11
    ensures var (m, y) := NextMonth(month, year); PrevMonth(m, y) == (month, year)
    ensures var (m, y) := PrevMonth(month, year); NextMonth(m, y) == (month, year)
  {
  }

  // ---------------------------------------------------------------------
  // Consecutive months

  /** Days from a fixed origin to the start of Zeller's year `yy`, modulo 7: a year advances the weekday by one, a leap year by two. */
  function YearShift(yy: int): int {
    yy + yy / 4 - yy / 100 + yy / 400
  }

  /** Zeller's month term `13 * (m + 1) / 5` for the 0-based month, January and February counted as months 13 and 14. */
  function MonthTerm(month: int): int
    requires 0 <= month <= 11
  {
    var m := if month < 2 then month + 13 else month + 1;
    (13 * (m + 1)) / 5
  }

  /** The year Zeller's congruence uses: January and February belong to the previous year. */
  function ZellerYear(month: int, y: int): int {
    if month < 2 then y - 1 else y
  }

  /** A positive multiple of a positive number is at least that number. */
  lemma MulAtLeast(d: int, x: int)
    requires 0 < d && 1 <= x
    ensures d * x >= d
  {
    assert d * x == d + d * (x - 1);
  }

  /** `a / d` is `q` when `a` is `q` whole `d`s plus a remainder below `d`. */
  lemma DivOf(a: int, d: int, q: int, r: int)
    requires 0 < d && a == d * q + r && 0 <= r < d
    ensures a / d == q && a % d == r
  {
    var q0, r0 := a / d, a % d;
    assert d * (q0 - q) == r - r0;
    if q0 > q {
      MulAtLeast(d, q0 - q);
    } else if q0 < q {
      MulAtLeast(d, q - q0);
    }
  }

  /** The century terms `K + K/4 + J/4 + 5J` of Zeller's congruence agree with `YearShift` modulo 7. */
  lemma CenturyTerms(yy: int)
    ensures var k, j := yy % 100, yy / 100;
      (k + k / 4 + j / 4 + 5 * j) % 7 == YearShift(yy) % 7
  {
    var k, j := yy % 100, yy / 100;
    var q, r := j / 4, j % 4;
    assert yy == 100 * j + k;
    DivOf(yy, 4, 25 * j + k / 4, k % 4);
    DivOf(yy, 100, j, k);
    DivOf(yy, 400, q, 100 * r + k);
    assert YearShift(yy) == (k + k / 4 + q + 5 * j) + 119 * j;
    DivOf(YearShift(yy), 7, (k + k / 4 + q + 5 * j) / 7 + 17 * j, (k + k / 4 + q + 5 * j) % 7);
  }

  /** Adding to a number adds to its remainder: `(x + y) % n == (x % n + y) % n`. */
  lemma ModAdd(x: int, y: int, n: int)
    requires 0 < n
    ensures (x + y) % n == (x % n + y) % n
  {
    var z := x % n + y;
    DivOf(x, n, x / n, x % n);
    DivOf(z, n, z / n, z % n);
    DivOf(x + y, n, x / n + z / n, z % n);
  }

  /** The weekday of the 1st is the month term plus the year shift, modulo 7. */
  lemma FirstDayFormula(month: int, year: int)
    requires 0 <= month <= 11
    ensures FirstDayOfMonth(month, year) == (MonthTerm(month) + YearShift(ZellerYear(month, JsYear(year)))) % 7
  {
    var yy := ZellerYear(month, JsYear(year));
    var k, j := yy % 100, yy / 100;
    var c := k + k / 4 + j / 4 + 5 * j;
    var g := YearShift(yy);
    var mt := MonthTerm(month);
    CenturyTerms(yy);
    assert FirstDayOfMonth(month, year) == ((1 + mt + c) % 7 + 6) % 7;
    ModAdd(1 + mt + c, 6, 7);
    ModAdd(c, mt + 7, 7);
    ModAdd(g, mt + 7, 7);
    ModAdd(7, g + mt, 7);
    assert c + (mt + 7) == 1 + mt + c + 6 && g + (mt + 7) == 7 + (g + mt);
  }

  /** Zeller's year advances the shift by two over a leap year and by one otherwise. */
  lemma YearShiftStep(y: int)
    ensures YearShift(y) == YearShift(y - 1) + (if IsLeapYear(y) then 2 else 1)
  {
    DivOf(y, 4, y / 4, y % 4);
    DivOf(y - 1, 4, if y % 4 == 0 then y / 4 - 1 else y / 4, if y % 4 == 0 then 3 else y % 4 - 1);
    DivOf(y - 1, 100, if y % 100 == 0 then y / 100 - 1 else y / 100, if y % 100 == 0 then 99 else y % 100 - 1);
    DivOf(y - 1, 400, if y % 400 == 0 then y / 400 - 1 else y / 400, if y % 400 == 0 then 399 else y % 400 - 1);
    if y % 100 == 0 {
      DivOf(y, 4, 25 * (y / 100), 0);
    }
    if y % 400 == 0 {
      DivOf(y, 100, 4 * (y / 400), 0);
    }
  }

  /** The first weekday of a month, before the final reduction modulo 7. */
  function DayCount(month: int, year: int): int
    requires 0 <= month <= 11
  {
    MonthTerm(month) + YearShift(ZellerYear(month, JsYear(year)))
  }

  /** The twelve month terms. */
  lemma MonthTermValues()
    ensures MonthTerm(0) == 36 && MonthTerm(1) == 39 && MonthTerm(2) == 10 && MonthTerm(3) == 13
    ensures MonthTerm(4) == 15 && MonthTerm(5) == 18 && MonthTerm(6) == 20 && MonthTerm(7) == 23
    ensures MonthTerm(8) == 26 && MonthTerm(9) == 28 && MonthTerm(10) == 31 && MonthTerm(11) == 33
  {
  }

  /** Within a year the count grows by the month's length less four weeks; from February to March by its length less eight weeks. */
  lemma DayCountStep(month: int, year: int)
    requires 0 <= month <= 11
    requires month == 11 ==> year != -1 && year != 99
    ensures var (m, y) := NextMonth(month, year);
      DayCount(m, y) == DayCount(month, year) + DaysInMonth(month, year) - (if month == 1 then 56 else 28)
  {
    MonthTermValues();
    if month == 1 {
      YearShiftStep(JsYear(year));
    } else if month == 11 {
      assert JsYear(year + 1) == JsYear(year) + 1;
    }
  }

  /** Taking away whole weeks before the reduction modulo 7 does not change the weekday. */
  lemma WeeksOff(a: int, days: int, e: int)
    requires e == 28 || e == 56
    ensures (a + days - e) % 7 == (a % 7 + days) % 7
  {
    ModAdd(a, days - e, 7);
    DivOf(-e, 7, -e / 7, 0);
    ModAdd(-e, a % 7 + days, 7);
    assert a + (days - e) == a + days - e && -e + (a % 7 + days) == a % 7 + (days - e);
  }

  /**
   * The month after starts as many weekdays later as the month has days:
   * the first weekdays and the month lengths agree. The two years where
   * `new Date` jumps (from -1 to 1900, from 1999 to 100) are excluded.
   */
  lemma NextMonthFirstDay(month: int, year: int)
    requires 0 <= month <= 11
    requires month == 11 ==> year != -1 && year != 99
    ensures var (m, y) := NextMonth(month, year);
      FirstDayOfMonth(m, y) == (FirstDayOfMonth(month, year) + DaysInMonth(month, year)) % 7
  {
    var (m, y) := NextMonth(month, year);
    FirstDayFormula(month, year);
    FirstDayFormula(m, y);
    DayCountStep(month, year);
    WeeksOff(DayCount(month, year), DaysInMonth(month, year), if month == 1 then 56 else 28);
  }

  // ---------------------------------------------------------------------
  // The month grid

  datatype CalendarDate = CalendarDate(year: int, month: int, day: int)

  /** How a day button is drawn; a selected day wins over today. */
  datatype Look = Selected | Today | Plain

  datatype Cell = Blank | DayCell(day: int, look: Look)

  function LookOf(day: int, month: int, year: int, selected: Option<CalendarDate>, today: CalendarDate): Look {
    if selected.Some? && selected.value == CalendarDate(year, month, day) then Selected
    else if today == CalendarDate(year, month, day) then Today
    else Plain
  }

  /**
   * The cells of `renderCalendar`: `firstDay` blanks, then one button per
   * day of the month, numbered from 1.
   */
  function Calendar(firstDay: nat, daysInMonth: nat, month: int, year: int,
                    selected: Option<CalendarDate>, today: CalendarDate): (r: seq<Cell>)
    ensures |r| == firstDay + daysInMonth
    ensures forall i :: 0 <= i < |r| ==> (r[i].Blank? <==> i < firstDay)
    ensures forall i :: firstDay <= i < |r| ==> r[i] == DayCell(i - firstDay + 1, LookOf(i - firstDay + 1, month, year, selected, today))
  {
    seq(firstDay + daysInMonth, i requires 0 <= i < firstDay + daysInMonth =>
      if i < firstDay then Blank else DayCell(i - firstDay + 1, LookOf(i - firstDay + 1, month, year, selected, today)))
  }

  /** At most one cell is drawn as selected, and only when the selected date lies in the month shown. */
  lemma {:induction false} OneSelectedCell(firstDay: nat, daysInMonth: nat, month: int, year: int,
                                           selected: Option<CalendarDate>, today: CalendarDate, i: int, j: int)
    requires var cells := Calendar(firstDay, daysInMonth, month, year, selected, today);
      0 <= i < |cells| && 0 <= j < |cells| && cells[i].DayCell? && cells[i].look == Selected
    ensures selected.Some? && selected.value.month == month && selected.value.year == year
    ensures i == firstDay + selected.value.day - 1
    ensures (Calendar(firstDay, daysInMonth, month, year, selected, today)[j].DayCell?
      && Calendar(firstDay, daysInMonth, month, year, selected, today)[j].look == Selected) ==> i == j
  {
    var cells := Calendar(firstDay, daysInMonth, month, year, selected, today);
    assert cells[i] == DayCell(i - firstDay + 1, LookOf(i - firstDay + 1, month, year, selected, today));
    if cells[j].DayCell? {
      assert cells[j] == DayCell(j - firstDay + 1, LookOf(j - firstDay + 1, month, year, selected, today));
    }
  }

  /** The picker's state: the month on show and whether the calendar is open. */
  class Picker {
    var currentMonth: int
    var currentYear: int
    var isOpen: bool

    predicate Valid()
      reads this
    {
      0 <= currentMonth <= 11
    }

    /** Opens closed, on the month of `today`. */
    constructor(today: CalendarDate)
      requires 0 <= today.month <= 11
      ensures Valid() && currentMonth == today.month && currentYear == today.year && !isOpen
    {
      currentMonth := today.month;
      currentYear := today.year;
      isOpen := false;
    }

    method HandlePrevMonth()
      requires Valid()
      modifies this
      ensures Valid() && (currentMonth, currentYear) == PrevMonth(old(currentMonth), old(currentYear))
      ensures isOpen == old(isOpen)
    {
      if currentMonth == 0 {
        currentMonth := 11;
        currentYear := currentYear - 1;
      } else {
        currentMonth := currentMonth - 1;
      }
    }

    method HandleNextMonth()
      requires Valid()
      modifies this
      ensures Valid() && (currentMonth, currentYear) == NextMonth(old(currentMonth), old(currentYear))
      ensures isOpen == old(isOpen)
    {
      if currentMonth == 11 {
        currentMonth := 0;
        currentYear := currentYear + 1;
      } else {
        currentMonth := currentMonth + 1;
      }
    }

    /** `handleDateClick`: emits the clicked day of the month on show, and closes. */
    method HandleDateClick(day: nat) returns (emitted: string)
      requires Valid()
      modifies this
      ensures Valid() && emitted == FormatDate(currentYear, currentMonth, day)
      ensures !isOpen && currentMonth == old(currentMonth) && currentYear == old(currentYear)
    {
      emitted := YearText(currentYear) + "-" + PadStart2(currentMonth + 1) + "-" + PadStart2(day);
      isOpen := false;
    }

    /** `handleToday`: emits today's date, and closes without moving the month on show. */
    method HandleToday(today: CalendarDate) returns (emitted: string)
      requires 0 <= today.month <= 11 && today.day >= 0
      modifies this
      ensures emitted == FormatDate(today.year, today.month, today.day)
      ensures !isOpen && currentMonth == old(currentMonth) && currentYear == old(currentYear)
    {
      emitted := FormatDate(today.year, today.month, today.day);
      isOpen := false;
    }

    /** `handleClear`: emits the empty value, and closes. */
    method HandleClear() returns (emitted: string)
      modifies this
      ensures emitted == "" && !isOpen
      ensures currentMonth == old(currentMonth) && currentYear == old(currentYear)
    {
      emitted := "";
      isOpen := false;
    }

    /** `renderCalendar`: the two loops that push the blanks and then the day buttons. */
    method RenderCalendar(selected: Option<CalendarDate>, today: CalendarDate) returns (days: seq<Cell>)
      requires Valid()
      ensures days == Calendar(FirstDayOfMonth(currentMonth, currentYear), DaysInMonth(currentMonth, currentYear),
                               currentMonth, currentYear, selected, today)
    {
      var daysInMonth := DaysInMonth(currentMonth, currentYear);
      var firstDay := FirstDayOfMonth(currentMonth, currentYear);
      ghost var spec := Calendar(firstDay, daysInMonth, currentMonth, currentYear, selected, today);
      days := [];
      for i := 0 to firstDay
        invariant days == spec[..i]
      {
        days := days + [Blank];
      }
      for day := 1 to daysInMonth + 1
        invariant days == spec[..firstDay + day - 1]
      {
        var look := if selected.Some? && selected.value == CalendarDate(currentYear, currentMonth, day) then Selected
                    else if today == CalendarDate(currentYear, currentMonth, day) then Today
                    else Plain;
        days := days + [DayCell(day, look)];
      }
      assert days == spec[..firstDay + daysInMonth];
    }
  }
}
