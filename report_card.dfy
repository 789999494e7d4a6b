/** The per-habit report card of `src/components/organisms/report-card.tsx`:
    the last seven days, one log slot per day, the completion rate and the
    badge colour it earns. */
module ReportCard {
  import opened Wrappers
  import opened Calendar
  import opened DateKeys
  import opened HabitTypes
  import DateRange
  import SeqUtil
  import Percent

  /** Today minus 0..6 days as keys, then reversed so the oldest comes first. */
  function LastSevenDays(today: Date): (keys: seq<string>)
    requires ValidDate(today) && 1 <= today.year <= 9999
  {
    DateRange.RangeKeyable(DateRange.Weekly, today);
    DateRange.WeeklyRange(today);
    assert forall i :: 0 <= i < 7 ==> ShiftBack(today, i) == DateRange.RangeDays(DateRange.Weekly, today)[6 - i];
    Reverse(seq(7, i requires 0 <= i < 7 => ToKey(ShiftBack(today, i))))
  }

  /** The card's window is the weekly range: seven ascending keys ending today. */
  lemma LastSevenDaysWindow(today: Date)
    requires ValidDate(today) && 1 <= today.year <= 9999
    ensures LastSevenDays(today) == DateRange.RangeKeys(DateRange.Weekly, today)
    ensures |LastSevenDays(today)| == 7
    ensures StrictlyAscending(LastSevenDays(today))
    ensures LastSevenDays(today)[6] == ToKey(today)
  {
    var w := LastSevenDays(today);
    var spec := DateRange.RangeKeys(DateRange.Weekly, today);
    DateRange.WeeklyRange(today);
    forall i | 0 <= i < 7
      ensures w[i] == spec[i]
    {
      WindowKey(today, i);
    }
    assert w == spec;
    DateRange.RangeShape(DateRange.Weekly, today);
  }

  /** The i-th key of the window is the i-th day of the weekly range. */
  lemma WindowKey(today: Date, i: nat)
    requires ValidDate(today) && 1 <= today.year <= 9999 && i < 7
    ensures |DateRange.RangeKeys(DateRange.Weekly, today)| == 7
    ensures LastSevenDays(today)[i] == DateRange.RangeKeys(DateRange.Weekly, today)[i]
  {
    DateRange.WeeklyRange(today);
    DateRange.RangeKeyable(DateRange.Weekly, today);
    var days := DateRange.RangeDays(DateRange.Weekly, today);
    assert days[i] == ShiftBack(today, 6 - i);
    assert LastSevenDays(today)[i] == ToKey(days[i]);
  }

  /** `logs.find(log => log.date === date)`. */
  function FindByDate(logs: seq<HabitLog>, date: string): (r: Option<HabitLog>)
    ensures r.Some? ==> r.value in logs && r.value.date == date
    ensures r.None? <==> forall l :: l in logs ==> l.date != date
  {
    if logs == [] then None
    else if logs[0].date == date then Some(logs[0])
    else FindByDate(logs[1..], date)
  }

  /** `find` returns the first log with the date: none before it has that date. */
  lemma {:induction false} FindByDateFirst(logs: seq<HabitLog>, date: string)
    ensures FindByDate(logs, date).Some? ==>
      exists i :: 0 <= i < |logs| && logs[i] == FindByDate(logs, date).value &&
        forall j :: 0 <= j < i ==> logs[j].date != date
  {
    if logs != [] && logs[0].date != date {
      FindByDateFirst(logs[1..], date);
      if FindByDate(logs, date).Some? {
        var i :| 0 <= i < |logs[1..]| && logs[1..][i] == FindByDate(logs, date).value &&
          forall j :: 0 <= j < i ==> logs[1..][j].date != date;
        assert logs[i + 1] == FindByDate(logs, date).value;
      }
    } else if logs != [] {
      assert logs[0] == FindByDate(logs, date).value;
    }
  }

  /** The stand-in for a day without a log: not completed, no texts. */
  function Placeholder(habit: Habit, date: string): HabitLog {
    HabitLog("placeholder-" + habit.id + "-" + date, habit.id, date, false, None, None)
  }

  /** The log shown for one day. */
  function Slot(habit: Habit, logs: seq<HabitLog>, date: string): (l: HabitLog)
    ensures l.date == date
  {
    match FindByDate(logs, date)
    case Some(l) => l
    case None => Placeholder(habit, date)
  }

  /** `sevenDayLogs`: the window mapped to its slots. */
  function SevenDayLogs(habit: Habit, logs: seq<HabitLog>, window: seq<string>): (r: seq<HabitLog>)
    ensures |r| == |window|
    ensures forall i :: 0 <= i < |r| ==> r[i].date == window[i]
  {
    seq(|window|, i requires 0 <= i < |window| => Slot(habit, logs, window[i]))
  }

  /** A day's slot is a real log of that day when there is one, otherwise the
      placeholder, which counts as not completed. */
  lemma SlotCases(habit: Habit, logs: seq<HabitLog>, window: seq<string>, i: nat)
    requires i < |window|
    ensures (exists l :: l in logs && l.date == window[i]) ==>
      SevenDayLogs(habit, logs, window)[i] in logs
    ensures (forall l :: l in logs ==> l.date != window[i]) ==>
      SevenDayLogs(habit, logs, window)[i] == Placeholder(habit, window[i]) &&
      !SevenDayLogs(habit, logs, window)[i].completed
  {
  }

  /** Logs dated outside the window do not change the slots. */
  lemma SlotsIgnoreOutside(habit: Habit, logs: seq<HabitLog>, window: seq<string>)
    ensures SevenDayLogs(habit, logs, window) ==
      SevenDayLogs(habit, SeqUtil.Filter(logs, (l: HabitLog) => l.date in window), window)
  {
    var p := (l: HabitLog) => l.date in window;
    forall i | 0 <= i < |window|
      ensures FindByDate(logs, window[i]) == FindByDate(SeqUtil.Filter(logs, p), window[i])
    {
      FindInFilter(logs, p, window[i]);
    }
  }

  lemma {:induction false} FindInFilter(logs: seq<HabitLog>, p: HabitLog -> bool, date: string)
    requires forall i :: 0 <= i < |logs| && logs[i].date == date ==> p(logs[i])
    ensures FindByDate(logs, date) == FindByDate(SeqUtil.Filter(logs, p), date)
  {
    if logs != [] {
      var x, rest := logs[0], logs[1..];
      assert logs == [x] + rest;
      assert forall i :: 0 <= i < |rest| ==> rest[i] == logs[i + 1];
      FindInFilter(rest, p, date);
      SeqUtil.FilterCons(x, rest, p);
      var f := SeqUtil.Filter(rest, p);
      if x.date == date {
        assert p(logs[0]);
        assert SeqUtil.Filter(logs, p) == [x] + f;
        assert ([x] + f)[0] == x;
      } else if p(x) {
        assert SeqUtil.Filter(logs, p) == [x] + f;
        assert ([x] + f)[1..] == f;
      } else {
        assert SeqUtil.Filter(logs, p) == f;
      }
    }
  }

  /** `completionCount`: slots marked completed. */
  function CompletionCount(slots: seq<HabitLog>): (n: nat)
    ensures n <= |slots|
  {
    |SeqUtil.Filter(slots, (l: HabitLog) => l.completed)|
  }

  /** `Math.round((count / 7) * 100)`. */
  function CompletionRate(count: nat): nat {
    Percent.RoundPercent(count, 7)
  }

  /** The rate for each possible count of completed days. */
  lemma CompletionRateTable(count: nat)
    requires count <= 7
    ensures CompletionRate(count) == [0, 14, 29, 43, 57, 71, 86, 100][count]
  {
    var r := CompletionRate(count);
    assert 14 * r <= 200 * count + 7 < 14 * (r + 1);
  }

  /** The rate is a percentage, 0 exactly when no day was completed and 100
      exactly when all seven were. */
  lemma CompletionRateBounds(count: nat)
    requires count <= 7
    ensures 0 <= CompletionRate(count) <= 100
    ensures CompletionRate(count) == 0 <==> count == 0
    ensures CompletionRate(count) == 100 <==> count == 7
  {
    CompletionRateTable(count);
  }

  datatype Badge = Green | Yellow | Red

  /** `getBadgeColor`: exactly one colour for every rate. */
  function BadgeColor(rate: int): (b: Badge)
    ensures b == Green <==> rate > 75
    ensures b == Yellow <==> 40 < rate <= 75
    ensures b == Red <==> rate <= 40
  {
    if rate > 75 then Green
    else if rate > 40 then Yellow
    else Red
  }

  /** In days completed out of seven: six or seven is green, three to five is
      yellow, two or fewer is red. */
  lemma BadgeByCount(count: nat)
    requires count <= 7
    ensures BadgeColor(CompletionRate(count)) ==
      if count >= 6 then Green else if count >= 3 then Yellow else Red
  {
    CompletionRateTable(count);
  }

  /** The whole card for a habit: the window, its slots, the rate and the badge. */
  function CardSummary(habit: Habit, logs: seq<HabitLog>, today: Date): (r: (seq<HabitLog>, nat, Badge))
    requires ValidDate(today) && 1 <= today.year <= 9999
    ensures r.0 == SevenDayLogs(habit, logs, LastSevenDays(today)) && |r.0| == 7
    ensures r.1 == CompletionRate(CompletionCount(r.0)) && r.1 <= 100
    ensures r.2 == BadgeColor(r.1)
  {
    var slots := SevenDayLogs(habit, logs, LastSevenDays(today));
    LastSevenDaysWindow(today);
    var rate := CompletionRate(CompletionCount(slots));
    CompletionRateBounds(CompletionCount(slots));
    (slots, rate, BadgeColor(rate))
  }
}
