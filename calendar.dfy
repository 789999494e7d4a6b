/** Gregorian calendar dates without a time of day, and day arithmetic that
    crosses month and year boundaries (what `Date.setDate` does when the
    day-of-month runs past either end of a month). */
module Calendar {

  /** A proleptic Gregorian calendar date. */
  datatype Date = Date(year: int, month: int, day: int)

  /** The Gregorian leap-year rule. */
  predicate IsLeapYear(y: int) {
    y % 4 == 0 && (y % 100 != 0 || y % 400 == 0)
  }

  function DaysInMonth(y: int, m: int): (n: int)
    requires 1 <= m <= 12
    ensures 28 <= n <= 31
  {
    if m == 2 then (if IsLeapYear(y) then 29 else 28)
    else if m == 4 || m == 6 || m == 9 || m == 11 then 30
    else 31
  }

  /** A date that exists on the calendar: month 1-12, day within that month. */
  predicate ValidDate(d: Date) {
    1 <= d.month <= 12 && 1 <= d.day <= DaysInMonth(d.year, d.month)
  }

  /** Chronological order. */
  predicate Before(a: Date, b: Date) {
    a.year < b.year ||
    (a.year == b.year && (a.month < b.month || (a.month == b.month && a.day < b.day)))
  }

  /** The calendar day after `d`. */
  function NextDay(d: Date): (r: Date)
    requires ValidDate(d)
    ensures ValidDate(r) && Before(d, r)
  {
    if d.day < DaysInMonth(d.year, d.month) then Date(d.year, d.month, d.day + 1)
    else if d.month < 12 then Date(d.year, d.month + 1, 1)
    else Date(d.year + 1, 1, 1)
  }

  /** The calendar day before `d`; it is the inverse of NextDay in both directions. */
  function PrevDay(d: Date): (r: Date)
    requires ValidDate(d)
    ensures ValidDate(r) && Before(r, d)
    ensures NextDay(r) == d
  {
    if d.day > 1 then Date(d.year, d.month, d.day - 1)
    else if d.month > 1 then Date(d.year, d.month - 1, DaysInMonth(d.year, d.month - 1))
    else Date(d.year - 1, 12, 31)
  }

  lemma PrevOfNext(d: Date)
    requires ValidDate(d)
    ensures PrevDay(NextDay(d)) == d
  {
    if d.day == DaysInMonth(d.year, d.month) && d.month < 12 {
      assert NextDay(d) == Date(d.year, d.month + 1, 1);
    }
  }

  /** No valid date lies strictly between a date and the day after it. */
  lemma NextDayIsSuccessor(d: Date, e: Date)
    requires ValidDate(d) && ValidDate(e)
    requires Before(d, e)
    ensures NextDay(d) == e || Before(NextDay(d), e)
  {
  }

  lemma BeforeTransitive(a: Date, b: Date, c: Date)
    requires Before(a, b) && Before(b, c)
    ensures Before(a, c)
  {
  }

  /** The date `n` calendar days before `d` (what `setDate(getDate() - n)` yields). */
  function ShiftBack(d: Date, n: nat): (r: Date)
    requires ValidDate(d)
    ensures ValidDate(r)
  {
    if n == 0 then d else PrevDay(ShiftBack(d, n - 1))
  }

  /** Number of days of year `y` before the first of month `m`. */
  function DaysBeforeMonth(y: int, m: int): (n: int)
    requires 1 <= m <= 13
    ensures n >= 28 * (m - 1)
  {
    if m == 1 then 0 else DaysBeforeMonth(y, m - 1) + DaysInMonth(y, m - 1)
  }

  /** The ordinal day of the year, January 1 being 1. */
  function DayOfYear(d: Date): (r: int)
    requires ValidDate(d)
    ensures 1 <= r
  {
    DaysBeforeMonth(d.year, d.month) + d.day
  }

  /** 365, or 366 in a leap year. */
  function YearLength(y: int): int {
    if IsLeapYear(y) then 366 else 365
  }

  lemma {:induction false} DaysBeforeMonthBound(y: int, m: int)
    requires 1 <= m <= 12
    ensures DaysBeforeMonth(y, m) + DaysInMonth(y, m) <= YearLength(y)
    ensures m == 12 ==> DaysBeforeMonth(y, m) + DaysInMonth(y, m) == YearLength(y)
  {
    // the table of months, unfolded once per month
    assert DaysBeforeMonth(y, 1) == 0;
    assert DaysBeforeMonth(y, 2) == 31;
    assert DaysBeforeMonth(y, 3) == 31 + DaysInMonth(y, 2);
    assert DaysBeforeMonth(y, 4) == 62 + DaysInMonth(y, 2);
    assert DaysBeforeMonth(y, 5) == 92 + DaysInMonth(y, 2);
    assert DaysBeforeMonth(y, 6) == 123 + DaysInMonth(y, 2);
    assert DaysBeforeMonth(y, 7) == 153 + DaysInMonth(y, 2);
    assert DaysBeforeMonth(y, 8) == 184 + DaysInMonth(y, 2);
    assert DaysBeforeMonth(y, 9) == 215 + DaysInMonth(y, 2);
    assert DaysBeforeMonth(y, 10) == 245 + DaysInMonth(y, 2);
    assert DaysBeforeMonth(y, 11) == 276 + DaysInMonth(y, 2);
    assert DaysBeforeMonth(y, 12) == 306 + DaysInMonth(y, 2);
  }

  /** Day-of-year ranges over 1..YearLength, and December 31 is the last day. */
  lemma DayOfYearBounds(d: Date)
    requires ValidDate(d)
    ensures DayOfYear(d) <= YearLength(d.year)
    ensures DayOfYear(d) == YearLength(d.year) <==> d.month == 12 && d.day == 31
  {
    DaysBeforeMonthBound(d.year, d.month);
    if d.month < 12 {
      DaysBeforeMonthBound(d.year, d.month + 1);
      assert DaysBeforeMonth(d.year, d.month + 1) == DaysBeforeMonth(d.year, d.month) + DaysInMonth(d.year, d.month);
    }
  }

  /** Stepping back one day within a year lowers the day-of-year by exactly one. */
  lemma DayOfYearPrev(d: Date)
    requires ValidDate(d)
    requires !(d.month == 1 && d.day == 1)
    ensures PrevDay(d).year == d.year
    ensures DayOfYear(PrevDay(d)) == DayOfYear(d) - 1
  {
  }

  /** The only date of its year with day-of-year 1 is January 1. */
  lemma DayOfYearOne(d: Date)
    requires ValidDate(d)
    ensures DayOfYear(d) == 1 <==> d.month == 1 && d.day == 1
  {
    if d.month > 1 {
      assert DaysBeforeMonth(d.year, d.month) >= 28;
    }
  }

  /** The `n` consecutive calendar days ending at `d`, oldest first. */
  function DaysEndingAt(d: Date, n: nat): (r: seq<Date>)
    requires ValidDate(d)
    ensures |r| == n
    decreases n
  {
    if n == 0 then [] else DaysEndingAt(PrevDay(d), n - 1) + [d]
  }

  /** Element `i` of the run is the day `n - 1 - i` days before its end, every
      element is a valid date, the last is `d`, and consecutive elements are
      consecutive calendar days. */
  lemma {:induction false} DaysEndingAtShape(d: Date, n: nat)
    requires ValidDate(d)
    decreases n
    ensures forall i :: 0 <= i < n ==> DaysEndingAt(d, n)[i] == ShiftBack(d, n - 1 - i)
    ensures forall i :: 0 <= i < n ==> ValidDate(DaysEndingAt(d, n)[i])
    ensures n > 0 ==> DaysEndingAt(d, n)[n - 1] == d
    ensures forall i :: 0 <= i < n - 1 ==> DaysEndingAt(d, n)[i + 1] == NextDay(DaysEndingAt(d, n)[i])
  {
    if n > 0 {
      var p := PrevDay(d);
      DaysEndingAtShape(p, n - 1);
      var r := DaysEndingAt(d, n);
      assert r == DaysEndingAt(p, n - 1) + [d];
      forall i | 0 <= i < n
        ensures r[i] == ShiftBack(d, n - 1 - i)
      {
        if i < n - 1 {
          ShiftBackPrev(d, n - 2 - i);
        }
      }
    }
  }

  /** Shifting back from the previous day is shifting back one day more. */
  lemma {:induction false} ShiftBackPrev(d: Date, k: nat)
    requires ValidDate(d)
    ensures ShiftBack(PrevDay(d), k) == ShiftBack(d, k + 1)
  {
    if k > 0 {
      ShiftBackPrev(d, k - 1);
    }
  }

  /** The run is strictly ascending in chronological order, hence has no duplicates. */
  lemma {:induction false} DaysEndingAtAscending(d: Date, n: nat)
    requires ValidDate(d)
    decreases n
    ensures forall i, j :: 0 <= i < j < n ==> Before(DaysEndingAt(d, n)[i], DaysEndingAt(d, n)[j])
  {
    if n > 0 {
      DaysEndingAtAscending(PrevDay(d), n - 1);
      DaysEndingAtShape(PrevDay(d), n - 1);
      var r := DaysEndingAt(d, n);
      var q := DaysEndingAt(PrevDay(d), n - 1);
      assert r == q + [d];
      forall i, j | 0 <= i < j < n
        ensures Before(r[i], r[j])
      {
        if j == n - 1 && i < n - 2 {
          BeforeTransitive(r[i], r[n - 2], d);
        }
      }
    }
  }

  /** Within a month, shifting back `k < day` days only lowers the day-of-month. */
  lemma {:induction false} ShiftBackInMonth(d: Date, k: nat)
    requires ValidDate(d) && k < d.day
    ensures ShiftBack(d, k) == Date(d.year, d.month, d.day - k)
  {
    if k > 0 {
      ShiftBackInMonth(d, k - 1);
    }
  }

  /** Within a year, shifting back `k < DayOfYear(d)` days stays in the year and
      lowers the day-of-year by `k`. */
  lemma {:induction false} ShiftBackInYear(d: Date, k: nat)
    requires ValidDate(d) && k < DayOfYear(d)
    ensures ShiftBack(d, k).year == d.year
    ensures DayOfYear(ShiftBack(d, k)) == DayOfYear(d) - k
  {
    if k > 0 {
      ShiftBackInYear(d, k - 1);
      var e := ShiftBack(d, k - 1);
      DayOfYearOne(e);
      DayOfYearPrev(e);
    }
  }

  /** The month-to-date run: it starts on the 1st of `d`'s month and every day
      lies in that month. */
  lemma MonthToDate(d: Date)
    requires ValidDate(d)
    ensures DaysEndingAt(d, d.day)[0] == Date(d.year, d.month, 1)
    ensures forall i :: 0 <= i < d.day ==> DaysEndingAt(d, d.day)[i] == Date(d.year, d.month, i + 1)
  {
    var n := d.day;
    var r := DaysEndingAt(d, n);
    DaysEndingAtShape(d, n);
    forall i | 0 <= i < n
      ensures r[i] == Date(d.year, d.month, i + 1)
    {
      var k := n - 1 - i;
      ShiftBackInMonth(d, k);
      assert r[i] == ShiftBack(d, k);
    }
  }

  /** The year-to-date run: it starts on January 1 of `d`'s year, every day lies
      in that year, and its length is at most 366 and is 366 exactly on
      December 31 of a leap year. */
  lemma YearToDate(d: Date)
    requires ValidDate(d)
    ensures DaysEndingAt(d, DayOfYear(d))[0] == Date(d.year, 1, 1)
    ensures forall i :: 0 <= i < DayOfYear(d) ==> DaysEndingAt(d, DayOfYear(d))[i].year == d.year
    ensures DayOfYear(d) <= 366
    ensures DayOfYear(d) == 366 <==> IsLeapYear(d.year) && d.month == 12 && d.day == 31
  {
    var n := DayOfYear(d);
    DaysEndingAtShape(d, n);
    forall i | 0 <= i < n
      ensures DaysEndingAt(d, n)[i].year == d.year
    {
      ShiftBackInYear(d, n - 1 - i);
    }
    ShiftBackInYear(d, n - 1);
    DayOfYearOne(ShiftBack(d, n - 1));
    DayOfYearBounds(d);
  }
}
