/**
 * Calendar dates as the converter uses them. A date is a day number: the
 * count of days since 1 January 1970 in local time, the `Day(t)` of the
 * ECMAScript date model. `new Date(y, m, d)` is local midnight of
 * `JsDate(y, m, d)`, and `getDay()` is `Weekday`.
 */
module Dates {
  import opened Text
  import opened Patterns

  datatype Day = Monday | Tuesday | Wednesday | Thursday | Friday | Saturday | Sunday

  /** `getDayOfWeekIndex`: the number `Date.prototype.getDay` gives the day, Sunday first. */
  function DayOfWeekIndex(day: Day): (r: nat)
    ensures r < 7
    ensures (r == 0) == (day == Sunday)
  {
    match day
    case Sunday => 0
    case Monday => 1
    case Tuesday => 2
    case Wednesday => 3
    case Thursday => 4
    case Friday => 5
    case Saturday => 6
  }

  /** The day that has a given index. */
  function DayAtIndex(i: nat): (day: Day)
    requires i < 7
    ensures DayOfWeekIndex(day) == i
  {
    if i == 0 then Sunday
    else if i == 1 then Monday
    else if i == 2 then Tuesday
    else if i == 3 then Wednesday
    else if i == 4 then Thursday
    else if i == 5 then Friday
    else Saturday
  }

  /** `DayOfWeekIndex` is a bijection onto 0..6; `DayAtIndex` is its inverse. */
  lemma DayOfWeekIndexBijective(a: Day, b: Day)
    ensures DayAtIndex(DayOfWeekIndex(a)) == a
    ensures DayOfWeekIndex(a) == DayOfWeekIndex(b) ==> a == b
  {
  }

  /** `getDay()` of a day number; day 0, 1 January 1970, was a Thursday. */
  function Weekday(n: int): (r: nat)
    ensures r < 7
  {
    (n + 4) % 7
  }

  /** Weekdays advance by one a day, modulo 7. */
  lemma WeekdayShift(n: int, j: int)
    ensures Weekday(n + j) == (Weekday(n) + j) % 7
  {
  }

  // ---------------------------------------------------------------- the ECMAScript calendar

  predicate IsLeapYear(y: int) {
    (y % 4 == 0 && y % 100 != 0) || y % 400 == 0
  }

  function DaysInYear(y: int): (n: nat) {
    if IsLeapYear(y) then 366 else 365
  }

  /** `DayFromYear(y)`: the day number of 1 January of year `y`. */
  function DayFromYear(y: int): (d: int) {
    365 * (y - 1970) + (y - 1969) / 4 - (y - 1901) / 100 + (y - 1601) / 400
  }

  /** Consecutive years start a year's length apart. */
  lemma DayFromYearStep(y: int)
    ensures DayFromYear(y + 1) - DayFromYear(y) == DaysInYear(y)
  {
    var a4, a100, a400 := (y - 1969) / 4, (y - 1901) / 100, (y - 1601) / 400;
    var b4, b100, b400 := (y - 1968) / 4, (y - 1900) / 100, (y - 1600) / 400;
    assert DayFromYear(y) == 365 * (y - 1970) + a4 - a100 + a400;
    assert DayFromYear(y + 1) == 365 * (y - 1969) + b4 - b100 + b400;
    FloorStep4(y);
    FloorStep100(y);
    FloorStep400(y);
    Divides(y);
    assert DayFromYear(y + 1) - DayFromYear(y) == 365 + (b4 - a4) - (b100 - a100) + (b400 - a400);
  }

  lemma Divides(y: int)
    ensures y % 400 == 0 ==> y % 100 == 0
    ensures y % 100 == 0 ==> y % 4 == 0
  {
    if y % 400 == 0 {
      assert y == 400 * (y / 400);
      assert y == 100 * (4 * (y / 400));
    }
    if y % 100 == 0 {
      assert y == 100 * (y / 100);
      assert y == 4 * (25 * (y / 100));
    }
  }

  lemma FloorStep4(y: int)
    ensures (y - 1968) / 4 == (y - 1969) / 4 + (if y % 4 == 0 then 1 else 0)
  {
  }

  lemma FloorStep100(y: int)
    ensures (y - 1900) / 100 == (y - 1901) / 100 + (if y % 100 == 0 then 1 else 0)
  {
  }

  lemma FloorStep400(y: int)
    ensures (y - 1600) / 400 == (y - 1601) / 400 + (if y % 400 == 0 then 1 else 0)
  {
  }

  /** Days of the year before the first of month `m` (0 = January). */
  function DaysBeforeMonth(m: nat, leap: bool): (n: nat)
    requires m < 12
  {
    var table := [0, 31, 59, 90, 120, 151, 181, 212, 243, 273, 304, 334];
    table[m] + (if leap && m >= 2 then 1 else 0)
  }

  function DaysInMonth(m: nat, leap: bool): (n: nat)
    requires m < 12
  {
    if m == 1 then (if leap then 29 else 28)
    else if m == 3 || m == 5 || m == 8 || m == 10 then 30
    else 31
  }

  /**
   * `MakeDay(year, month, date)`: month and day outside their ranges roll
   * over into the next or previous month or year.
   */
  function MakeDay(year: int, month: int, date: int): (d: int) {
    var ym := year + month / 12;
    var mn := month % 12;
    DayFromYear(ym) + DaysBeforeMonth(mn, IsLeapYear(ym)) + date - 1
  }

  /** The first of each month is its predecessor's length after the first of the previous one. */
  lemma MonthLength(year: int, month: int)
    ensures MakeDay(year, month + 1, 1) - MakeDay(year, month, 1)
            == DaysInMonth(month % 12, IsLeapYear(year + month / 12))
  {
    var ym := year + month / 12;
    if month % 12 == 11 {
      assert (month + 1) / 12 == month / 12 + 1 && (month + 1) % 12 == 0;
      DayFromYearStep(ym);
    } else {
      assert (month + 1) / 12 == month / 12 && (month + 1) % 12 == month % 12 + 1;
    }
  }

  /** A month count past December continues in the next year. */
  lemma MakeDayYearRollover(year: int, month: int, date: int)
    ensures MakeDay(year, month + 12, date) == MakeDay(year + 1, month, date)
  {
  }

  /** `new Date(year, month, date)` (local midnight): years 0 to 99 mean 1900 to 1999. */
  function JsDate(year: int, month: int, date: int): (d: int) {
    var yr := if 0 <= year <= 99 then 1900 + year else year;
    MakeDay(yr, month, date)
  }

  /** A `Date` built by `new Date(year, month, day)`, kept as the three arguments. */
  datatype CalendarDate = CalendarDate(year: int, month: int, day: int)

  /** The day number of a constructed date. */
  function DayNumber(date: CalendarDate): (d: int) {
    JsDate(date.year, date.month, date.day)
  }

  function DigitValue(c: char): (v: int) {
    c as int - '0' as int
  }

  /**
   * `parseDate` on a `dd/mm/yyyy` token: the fields are read as day, month,
   * year, and the month is made 0-based. The parser calls it only on the
   * ten-character captures of the dates pattern.
   */
  function ParseDate(dateStr: string): (r: CalendarDate)
    requires |dateStr| == 10
    ensures IsDateToken(dateStr) ==>
              var parts := Split(dateStr, '/');
              |parts| == 3 && AllDigits(parts[0]) && AllDigits(parts[1]) && AllDigits(parts[2])
              && r == CalendarDate(DigitsValue(parts[2]), DigitsValue(parts[1]) - 1, DigitsValue(parts[0]))
  {
    var day := 10 * DigitValue(dateStr[0]) + DigitValue(dateStr[1]);
    var month := 10 * DigitValue(dateStr[3]) + DigitValue(dateStr[4]);
    var year := 1000 * DigitValue(dateStr[6]) + 100 * DigitValue(dateStr[7])
                + 10 * DigitValue(dateStr[8]) + DigitValue(dateStr[9]);
    DateTokenFields(dateStr);
    CalendarDate(year, month - 1, day)
  }

  /** On a token, the fields are two- and four-digit numbers, the month one less. */
  lemma ParseDateBounds(dateStr: string)
    requires IsDateToken(dateStr)
    ensures var r := ParseDate(dateStr);
            0 <= r.day <= 99 && -1 <= r.month <= 98 && 0 <= r.year <= 9999
  {
  }

  lemma DigitsValue2(x: string)
    requires |x| == 2 && AllDigits(x)
    ensures DigitsValue(x) == 10 * DigitValue(x[0]) + DigitValue(x[1])
  {
    assert x[..1][..0] == [];
    assert x[..1] == [x[0]];
    assert DigitsValue(x[..1]) == DigitValue(x[0]);
  }

  lemma DigitsValue4(x: string)
    requires |x| == 4 && AllDigits(x)
    ensures DigitsValue(x) == 1000 * DigitValue(x[0]) + 100 * DigitValue(x[1]) + 10 * DigitValue(x[2]) + DigitValue(x[3])
  {
    assert x[..3][..2] == x[..2];
    DigitsValue2(x[..2]);
    assert DigitsValue(x[..3]) == 10 * DigitsValue(x[..2]) + DigitValue(x[2]);
  }

  /** The three `/`-separated fields of a token, read with `parseInt`, are its digit groups. */
  lemma DateTokenFields(s: string)
    requires |s| == 10
    ensures IsDateToken(s) ==>
              var parts := Split(s, '/');
              |parts| == 3 && AllDigits(parts[0]) && AllDigits(parts[1]) && AllDigits(parts[2])
              && DigitsValue(parts[0]) == 10 * DigitValue(s[0]) + DigitValue(s[1])
              && DigitsValue(parts[1]) == 10 * DigitValue(s[3]) + DigitValue(s[4])
              && DigitsValue(parts[2]) == 1000 * DigitValue(s[6]) + 100 * DigitValue(s[7])
                                          + 10 * DigitValue(s[8]) + DigitValue(s[9])
  {
    if IsDateToken(s) {
      SplitDateToken(s);
      var a, b, c := s[..2], s[3..5], s[6..10];
      assert AllDigits(a) && AllDigits(b) && AllDigits(c);
      DigitsValue2(a);
      DigitsValue2(b);
      DigitsValue4(c);
    }
  }

  /** A `dd/mm/yyyy` token splits at its two slashes. */
  lemma SplitDateToken(s: string)
    requires IsDateToken(s)
    ensures Split(s, '/') == [s[..2], s[3..5], s[6..10]]
  {
    assert IndexOf(s, '/') == 2 by {
      assert s[0] != '/' && s[1] != '/';
      assert IndexOf(s[1..], '/') == 1 by {
        assert s[1..][0] != '/' && s[1..][1] == '/';
        assert IndexOf(s[2..], '/') == 0;
      }
    }
    var t := s[3..];
    assert IndexOf(t, '/') == 2 by {
      assert t[0] != '/' && t[1] != '/';
      assert IndexOf(t[1..], '/') == 1 by {
        assert t[1..][0] != '/' && t[1..][1] == '/';
        assert IndexOf(t[2..], '/') == 0;
      }
    }
    var u := t[3..];
    assert u == s[6..10] by {
      assert s == s[..6] + s[6..10];
      assert t == s[3..6] + s[6..10];
    }
    assert IndexOf(u, '/') == |u| by {
      assert forall i :: 0 <= i < |u| ==> u[i] != '/';
      IndexOfAbsent(u, '/');
    }
    assert Split(t, '/') == [t[..2]] + Split(u, '/');
    assert Split(s, '/') == [s[..2]] + Split(t, '/');
    assert t[..2] == s[3..5];
  }

  lemma {:induction false} IndexOfAbsent(s: string, c: char)
    requires forall i :: 0 <= i < |s| ==> s[i] != c
    ensures IndexOf(s, c) == |s|
    decreases |s|
  {
    if |s| > 0 {
      IndexOfAbsent(s[1..], c);
    }
  }

  // ---------------------------------------------------------------- first occurrence

  /** The first day on or after `start` whose weekday index is `target`. */
  function FirstOnOrAfter(start: int, target: nat): (d: int)
    requires target < 7
    ensures start <= d < start + 7
    ensures Weekday(d) == target
    ensures forall k :: start <= k < d ==> Weekday(k) != target
  {
    var d := start + (target - Weekday(start)) % 7;
    WeekdayShift(start, d - start);
    forall k | start <= k < d ensures Weekday(k) != target {
      WeekdayShift(start, k - start);
    }
    d
  }

  /**
   * Lines 337-342 of the converter: start from the term's first day and
   * advance one day at a time until the weekday matches.
   */
  method FirstOccurrence(startDate: int, day: Day) returns (firstDate: int)
    ensures startDate <= firstDate < startDate + 7
    ensures Weekday(firstDate) == DayOfWeekIndex(day)
    ensures forall k :: startDate <= k < firstDate ==> Weekday(k) != DayOfWeekIndex(day)
  {
    firstDate := startDate;
    var dayOfWeekIndex := DayOfWeekIndex(day);
    while Weekday(firstDate) != dayOfWeekIndex
      invariant startDate <= firstDate <= FirstOnOrAfter(startDate, dayOfWeekIndex)
      invariant forall k :: startDate <= k < firstDate ==> Weekday(k) != dayOfWeekIndex
      decreases FirstOnOrAfter(startDate, dayOfWeekIndex) - firstDate
    {
      firstDate := firstDate + 1;
    }
  }

  /** The loop does not move a start that already has the weekday. */
  lemma FirstOnOrAfterStaysPut(start: int, target: nat)
    requires target < 7 && Weekday(start) == target
    ensures FirstOnOrAfter(start, target) == start
  {
  }

  /** The three properties of the loop's result determine it: it is `FirstOnOrAfter`. */
  lemma FirstOnOrAfterUnique(start: int, target: nat, d: int)
    requires target < 7 && start <= d && Weekday(d) == target
    requires forall k :: start <= k < d ==> Weekday(k) != target
    ensures d == FirstOnOrAfter(start, target)
  {
  }
}
