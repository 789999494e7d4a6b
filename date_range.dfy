/** The date-range engine of `src/lib/utils.ts`: a named range and today's
    calendar date become the ascending list of `YYYY-MM-DD` keys the reports
    aggregate over. */
module DateRange {
  import opened Calendar
  import opened DateKeys

  datatype TimeRange = Weekly | Monthly | Yearly

  /** The days a range denotes: the last seven days, the month to date or
      the year to date, each ending today. */
  function RangeDays(range: TimeRange, today: Date): (r: seq<Date>)
    requires ValidDate(today)
  {
    match range
    case Weekly => DaysEndingAt(today, 7)
    case Monthly => DaysEndingAt(today, today.day)
    case Yearly => DaysEndingAt(today, DayOfYear(today))
  }

  /** Every day of a range is in the four-digit-year span when today is. */
  lemma {:induction false} RangeKeyable(range: TimeRange, today: Date)
    requires ValidDate(today) && 1 <= today.year <= 9999
    ensures forall i :: 0 <= i < |RangeDays(range, today)| ==> Keyable(RangeDays(range, today)[i])
  {
    match range
    case Weekly => WeekKeyable(today);
    case Monthly => MonthKeyable(today);
    case Yearly => YearKeyable(today);
  }

  lemma {:induction false} WeekKeyable(today: Date)
    requires ValidDate(today) && 1 <= today.year <= 9999
    ensures forall i :: 0 <= i < 7 ==> Keyable(DaysEndingAt(today, 7)[i])
  {
    var r := DaysEndingAt(today, 7);
    DaysEndingAtShape(today, 7);
    forall i | 0 <= i < 7
      ensures r[i].year >= 0
    {
      ShiftBackYear(today, 6 - i);
      assert r[i] == ShiftBack(today, 7 - 1 - i);
    }
  }

  lemma {:induction false} MonthKeyable(today: Date)
    requires ValidDate(today) && 1 <= today.year <= 9999
    ensures forall i :: 0 <= i < today.day ==> Keyable(DaysEndingAt(today, today.day)[i])
  {
    DaysEndingAtShape(today, today.day);
    MonthToDate(today);
  }

  lemma {:induction false} YearKeyable(today: Date)
    requires ValidDate(today) && 1 <= today.year <= 9999
    ensures forall i :: 0 <= i < DayOfYear(today) ==> Keyable(DaysEndingAt(today, DayOfYear(today))[i])
  {
    DaysEndingAtShape(today, DayOfYear(today));
    YearToDate(today);
  }

  /** Going back fewer than 28 days moves back at most one year. */
  lemma {:induction false} ShiftBackYear(d: Date, k: nat)
    requires ValidDate(d) && k < 28
    ensures ShiftBack(d, k).year >= d.year - 1
  {
    if k > 0 {
      ShiftBackYear(d, k - 1);
      if ShiftBack(d, k - 1).year == d.year - 1 {
        ShiftBackFromYearEnd(d, k - 1);
      }
    }
  }

  /** Once the year has been left, going back stays in December for the
      remaining days of the shift. */
  lemma {:induction false} ShiftBackFromYearEnd(d: Date, k: nat)
    requires ValidDate(d) && k < 28
    requires ShiftBack(d, k).year == d.year - 1
    ensures ShiftBack(d, k).month == 12 && ShiftBack(d, k).day >= 31 - k
  {
    if k == 0 {
    } else if ShiftBack(d, k - 1).year == d.year - 1 {
      ShiftBackFromYearEnd(d, k - 1);
    }
  }

  /** The keys of a range's days. */
  function RangeKeys(range: TimeRange, today: Date): (ks: seq<string>)
    requires ValidDate(today) && 1 <= today.year <= 9999
  {
    RangeKeyable(range, today);
    KeysOf(RangeDays(range, today))
  }

  /** `getDatesInRange`: each case pushes keys into a local list in a loop,
      then the list is sorted with `localeCompare`. */
  method DatesInRange(range: TimeRange, today: Date) returns (keys: seq<string>)
    requires ValidDate(today) && 1 <= today.year <= 9999
    ensures keys == RangeKeys(range, today)
  {
    var dates: seq<string>;
    RangeShape(range, today);
    match range {
      case Weekly =>
        dates := PushWeekly(today);
        SortDescending(dates);
      case Monthly =>
        dates := PushMonthly(today);
        SortAscending(dates);
      case Yearly =>
        dates := PushYearly(today);
        SortAscending(dates);
    }
    keys := SortKeys(dates);
  }

  /** The weekly case: today minus 0, 1, ..., 6 days, newest first. */
  method PushWeekly(today: Date) returns (dates: seq<string>)
    requires ValidDate(today) && 1 <= today.year <= 9999
    ensures Reverse(dates) == RangeKeys(Weekly, today)
  {
    RangeKeyable(Weekly, today);
    var spec := RangeDays(Weekly, today);
    DaysEndingAtShape(today, 7);
    dates := [];
    for i := 0 to 7
      invariant |dates| == i
      invariant forall k :: 0 <= k < i ==> dates[k] == ToKey(spec[6 - k])
    {
      var date := ShiftBack(today, i);
      assert date == spec[6 - i];
      dates := dates + [ToKey(date)];
    }
  }

  /** The monthly case: the 1st plus 0, 1, ... days while below the number of
      days elapsed since the 1st plus one, which for a calendar date is its
      day-of-month. */
  method PushMonthly(today: Date) returns (dates: seq<string>)
    requires ValidDate(today) && 1 <= today.year <= 9999
    ensures dates == RangeKeys(Monthly, today)
  {
    RangeKeyable(Monthly, today);
    var spec := RangeDays(Monthly, today);
    MonthToDate(today);
    var firstDayOfMonth := Date(today.year, today.month, 1);
    var daysInMonth := today.day;
    dates := [];
    for i := 0 to daysInMonth
      invariant |dates| == i
      invariant forall k :: 0 <= k < i ==> dates[k] == ToKey(spec[k])
    {
      var date := Date(firstDayOfMonth.year, firstDayOfMonth.month, firstDayOfMonth.day + i);
      assert date == spec[i];
      dates := dates + [ToKey(date)];
    }
  }

  /** The monthly case as the source writes it, `ms` milliseconds after
      midnight (the resolution of a `Date` difference): the bound is the
      time since midnight on the 1st in days, plus one, so any instant after
      midnight makes it fractional and the loop runs once more, past today
      into tomorrow (the 1st of the next month on a month's last day, as
      `setDate` rolls over). */
  method PushMonthlyAsWritten(today: Date, ms: nat) returns (dates: seq<string>)
    requires ValidDate(today) && 1 <= today.year <= 9998 && ms < 86400000
    ensures |dates| == if ms == 0 then today.day else today.day + 1
    ensures dates[..today.day] == RangeKeys(Monthly, today)
    ensures ms > 0 ==> dates[today.day] == ToKey(NextDay(today))
  {
    var d := Date(today.year, today.month, 1);
    var i := 0;
    dates := [];
    while i * 86400000 < today.day * 86400000 + ms
      invariant 0 <= i <= today.day + 1
      invariant ms == 0 ==> i <= today.day
      invariant |dates| == i
      invariant i <= today.day ==> d == MonthCursor(today, i)
      invariant forall k :: 0 <= k < i ==> dates[k] == ToKey(MonthCursor(today, k))
      decreases today.day + 1 - i
    {
      CursorStep(today, i);
      dates := dates + [ToKey(d)];
      d := NextDay(d);
      i := i + 1;
    }
    CursorKeys(today, dates);
  }

  /** The cursor of the monthly loop after `i` steps: the (i+1)-th of the
      month up to today, then tomorrow. */
  function MonthCursor(today: Date, i: nat): (d: Date)
    requires ValidDate(today) && i <= today.day
    ensures ValidDate(d)
  {
    if i < today.day then Date(today.year, today.month, i + 1) else NextDay(today)
  }

  /** The cursor has a key, and stepping it a day moves it to the next one. */
  lemma CursorStep(today: Date, i: nat)
    requires ValidDate(today) && 1 <= today.year <= 9998 && i <= today.day
    ensures Keyable(MonthCursor(today, i))
    ensures i < today.day ==> NextDay(MonthCursor(today, i)) == MonthCursor(today, i + 1)
  {
  }

  /** Keys of the cursor positions are the month-to-date keys, then tomorrow's. */
  lemma CursorKeys(today: Date, dates: seq<string>)
    requires ValidDate(today) && 1 <= today.year <= 9998
    requires today.day <= |dates| <= today.day + 1
    requires forall k :: 0 <= k < |dates| ==> dates[k] == ToKey(MonthCursor(today, k))
    ensures dates[..today.day] == RangeKeys(Monthly, today)
    ensures |dates| > today.day ==> dates[today.day] == ToKey(NextDay(today))
  {
    MonthToDate(today);
    RangeKeyable(Monthly, today);
  }

  /** Tomorrow is not in the month-to-date range, so the extra key the
      source's loop adds after midnight is one the range should not hold. */
  lemma TomorrowOutsideMonthly(today: Date)
    requires ValidDate(today) && 1 <= today.year <= 9998
    ensures ToKey(NextDay(today)) !in RangeKeys(Monthly, today)
  {
    var ks := RangeKeys(Monthly, today);
    var t := NextDay(today);
    MonthToDate(today);
    forall i | 0 <= i < |ks|
      ensures ks[i] != ToKey(t)
    {
      var d := RangeDays(Monthly, today)[i];
      assert d == Date(today.year, today.month, i + 1);
      KeyOrder(d, t);
    }
  }

  /** The yearly case: a cursor starts at January 1 and steps one day at a
      time while it is not after today. */
  method PushYearly(today: Date) returns (dates: seq<string>)
    requires ValidDate(today) && 1 <= today.year <= 9999
    ensures dates == RangeKeys(Yearly, today)
  {
    RangeKeyable(Yearly, today);
    var spec := RangeDays(Yearly, today);
    var n := DayOfYear(today);
    YearToDate(today);
    DaysEndingAtShape(today, n);
    DaysEndingAtAscending(today, n);
    var d := Date(today.year, 1, 1);
    ghost var pushed := 0;
    dates := [];
    while !Before(today, d)
      invariant 0 <= pushed <= n
      invariant pushed < n ==> d == spec[pushed]
      invariant pushed == n ==> d == NextDay(today)
      invariant |dates| == pushed
      invariant forall k :: 0 <= k < pushed ==> dates[k] == ToKey(spec[k])
      decreases n - pushed
    {
      dates := dates + [ToKey(d)];
      d := NextDay(d);
      pushed := pushed + 1;
    }
  }

  /** Weekly: seven keys, today and the six days before it, oldest first. */
  lemma {:induction false} WeeklyRange(today: Date)
    requires ValidDate(today) && 1 <= today.year <= 9999
    ensures |RangeDays(Weekly, today)| == 7
    ensures forall i :: 0 <= i < 7 ==> RangeDays(Weekly, today)[i] == ShiftBack(today, 6 - i)
    ensures RangeDays(Weekly, today)[6] == today
  {
    var r := RangeDays(Weekly, today);
    DaysEndingAtShape(today, 7);
    forall i | 0 <= i < 7
      ensures r[i] == ShiftBack(today, 6 - i)
    {
      assert r[i] == ShiftBack(today, 7 - 1 - i);
    }
  }

  /** Monthly: from the 1st of today's month to today, all in that month; its
      length is today's day-of-month. */
  lemma MonthlyRange(today: Date)
    requires ValidDate(today)
    ensures |RangeDays(Monthly, today)| == today.day
    ensures RangeDays(Monthly, today)[0] == Date(today.year, today.month, 1)
    ensures RangeDays(Monthly, today)[today.day - 1] == today
    ensures forall i :: 0 <= i < today.day ==>
      RangeDays(Monthly, today)[i].year == today.year && RangeDays(Monthly, today)[i].month == today.month
  {
    MonthToDate(today);
  }

  /** Yearly: from January 1 of today's year to today; its length is today's
      day-of-year, 366 exactly on December 31 of a leap year. */
  lemma YearlyRange(today: Date)
    requires ValidDate(today)
    ensures |RangeDays(Yearly, today)| == DayOfYear(today)
    ensures RangeDays(Yearly, today)[0] == Date(today.year, 1, 1)
    ensures RangeDays(Yearly, today)[DayOfYear(today) - 1] == today
    ensures forall i :: 0 <= i < DayOfYear(today) ==> RangeDays(Yearly, today)[i].year == today.year
    ensures |RangeDays(Yearly, today)| == 366 <==> IsLeapYear(today.year) && today.month == 12 && today.day == 31
  {
    YearToDate(today);
    DaysEndingAtShape(today, DayOfYear(today));
  }

  /** Every range is non-empty, ends today, is made of valid dates, is strictly
      ascending both by date and by key, and steps one calendar day at a time. */
  lemma RangeShape(range: TimeRange, today: Date)
    requires ValidDate(today) && 1 <= today.year <= 9999
    ensures |RangeDays(range, today)| >= 1
    ensures RangeDays(range, today)[|RangeDays(range, today)| - 1] == today
    ensures forall i :: 0 <= i < |RangeDays(range, today)| ==> ValidDate(RangeDays(range, today)[i])
    ensures forall i :: 0 <= i < |RangeDays(range, today)| - 1 ==>
      RangeDays(range, today)[i + 1] == NextDay(RangeDays(range, today)[i])
    ensures forall i, j :: 0 <= i < j < |RangeDays(range, today)| ==>
      Before(RangeDays(range, today)[i], RangeDays(range, today)[j])
    ensures StrictlyAscending(RangeKeys(range, today))
  {
    var n := match range
      case Weekly => 7
      case Monthly => today.day
      case Yearly => DayOfYear(today);
    assert RangeDays(range, today) == DaysEndingAt(today, n);
    DaysEndingAtShape(today, n);
    DaysEndingAtAscending(today, n);
    RangeKeyable(range, today);
    RunKeysAscending(today, n);
  }
}
