/** The "track today" page `src/app/page.tsx`: the time-of-day category
    table and the scheduler that picks the current one, the focus/all
    filter, and the page's habit and log lists with their two updates. */
module Dashboard {
  import opened Wrappers
  import opened HabitTypes
  import SeqUtil

  /** One row of the `CATEGORIES` table: a titled window of whole hours. */
  datatype Slot = Slot(title: string, category: Category, startHour: int, endHour: int)

  const Categories: seq<Slot> := [
    Slot("Pagi", Morning, 4, 11),
    Slot("Setelah Dzuhur", AfterDhuhr, 12, 15),
    Slot("Sore & Malam", AfternoonEvening, 16, 21),
    Slot("Persiapan & Kualitas Tidur", SleepPrep, 22, 3)
  ]

  /** A window with start <= end is the closed interval [start, end]; one
      with start > end runs past midnight. */
  predicate InWindow(slot: Slot, hour: int) {
    if slot.startHour <= slot.endHour then slot.startHour <= hour <= slot.endHour
    else hour >= slot.startHour || hour <= slot.endHour
  }

  /** The first row of `table` whose window holds `hour`. */
  function FirstWindow(table: seq<Slot>, hour: int): (r: Option<nat>)
    ensures r.Some? ==> r.value < |table| && InWindow(table[r.value], hour)
    ensures r.Some? ==> forall j :: 0 <= j < r.value ==> !InWindow(table[j], hour)
    ensures r.None? ==> forall j :: 0 <= j < |table| ==> !InWindow(table[j], hour)
  {
    if table == [] then None
    else if InWindow(table[0], hour) then Some(0)
    else match FirstWindow(table[1..], hour)
      case None => None
      case Some(k) => Some(k + 1)
  }

  /** `getCurrentCategory` at the given hour of the local clock: the first
      matching table row, with `Morning` as the fallback. */
  function CurrentCategory(hour: int): (c: Category) {
    match FirstWindow(Categories, hour)
    case Some(k) => Categories[k].category
    case None => Morning
  }

  /** Which table row the scheduler picks at each hour: the rows are tried
      in order, so the first window holding the hour wins. */
  lemma FirstWindowOfTable(hour: int)
    ensures FirstWindow(Categories, hour) ==
      if 4 <= hour <= 11 then Some(0)
      else if 12 <= hour <= 15 then Some(1)
      else if 16 <= hour <= 21 then Some(2)
      else if hour >= 22 || hour <= 3 then Some(3)
      else None
  {
    var s3 := Categories[3..];
    assert s3[1..] == [] && s3[0] == Categories[3];
    assert FirstWindow(s3, hour) == if InWindow(Categories[3], hour) then Some(0) else None;
    var s2 := Categories[2..];
    assert s2[1..] == s3 && s2[0] == Categories[2];
    var s1 := Categories[1..];
    assert s1[1..] == s2 && s1[0] == Categories[1];
    assert Categories[1..] == s1;
  }

  /** The hour-to-category mapping over a day. */
  lemma HourMapping(hour: int)
    requires 0 <= hour <= 23
    ensures CurrentCategory(hour) ==
      if 4 <= hour <= 11 then Morning
      else if 12 <= hour <= 15 then AfterDhuhr
      else if 16 <= hour <= 21 then AfternoonEvening
      else SleepPrep
  {
    FirstWindowOfTable(hour);
  }

  /** The four windows partition the day: every hour lies in exactly one, so
      the fallback is never taken and the answer is a table category. */
  lemma WindowsPartitionDay(hour: int)
    requires 0 <= hour <= 23
    ensures FirstWindow(Categories, hour).Some?
    ensures forall j, k :: 0 <= j < k < |Categories| ==> !(InWindow(Categories[j], hour) && InWindow(Categories[k], hour))
    ensures CurrentCategory(hour) != All
    ensures exists k :: 0 <= k < |Categories| && Categories[k].category == CurrentCategory(hour)
  {
    FirstWindowOfTable(hour);
    var k := FirstWindow(Categories, hour).value;
    assert Categories[k].category == CurrentCategory(hour);
  }

  datatype ViewMode = Focus | ShowAll

  /** The table rows shown: in focus mode those of the current category, else all. */
  function FilteredCategories(mode: ViewMode, hour: int): (r: seq<Slot>) {
    match mode
    case Focus => SeqUtil.Filter(Categories, (s: Slot) => s.category == CurrentCategory(hour))
    case ShowAll => Categories
  }

  /** Focus mode shows exactly the row whose window holds the hour; "all"
      shows the whole table in table order. */
  lemma FilteredCategoriesShape(mode: ViewMode, hour: int)
    requires 0 <= hour <= 23
    ensures mode == ShowAll ==> FilteredCategories(mode, hour) == Categories
    ensures mode == Focus ==> |FilteredCategories(mode, hour)| == 1
    ensures mode == Focus ==> InWindow(FilteredCategories(mode, hour)[0], hour)
    ensures mode == Focus ==> FilteredCategories(mode, hour)[0].category == CurrentCategory(hour)
  {
    if mode == Focus {
      var c := CurrentCategory(hour);
      WindowsPartitionDay(hour);
      var k := FirstWindow(Categories, hour).value;
      SeqUtil.FilterOne(Categories, (s: Slot) => s.category == c, k);
    }
  }

  /** `findIndex` for a log id: the first position holding that id, or -1. */
  method FindLogIndex(logs: seq<HabitLog>, id: string) returns (index: int)
    ensures -1 <= index < |logs|
    ensures index == -1 <==> forall j :: 0 <= j < |logs| ==> logs[j].id != id
    ensures index >= 0 ==> logs[index].id == id && forall j :: 0 <= j < index ==> logs[j].id != id
  {
    var i := 0;
    while i < |logs|
      invariant 0 <= i <= |logs|
      invariant forall j :: 0 <= j < i ==> logs[j].id != id
    {
      if logs[i].id == id {
        return i;
      }
      i := i + 1;
    }
    return -1;
  }

  /** The first position of a log with this id, as a value. */
  function LogPosition(logs: seq<HabitLog>, id: string): (r: Option<nat>)
    ensures r.Some? ==> r.value < |logs| && logs[r.value].id == id
    ensures r.Some? ==> forall j :: 0 <= j < r.value ==> logs[j].id != id
    ensures r.None? ==> forall j :: 0 <= j < |logs| ==> logs[j].id != id
  {
    if logs == [] then None
    else if logs[0].id == id then Some(0)
    else match LogPosition(logs[1..], id)
      case None => None
      case Some(k) => Some(k + 1)
  }

  /** The log list after the server returns `log`: it replaces the first
      entry with its id, or is appended when there is none. */
  function MergeLog(logs: seq<HabitLog>, log: HabitLog): seq<HabitLog> {
    match LogPosition(logs, log.id)
    case Some(i) => logs[i := log]
    case None => logs + [log]
  }

  /** Merging a log whose id is present replaces that entry in place and
      nothing else; merging a new id appends it. Either way the log is in the
      result and every other id keeps its entries. */
  lemma MergeLogCases(logs: seq<HabitLog>, log: HabitLog)
    ensures (exists j :: 0 <= j < |logs| && logs[j].id == log.id) ==>
      |MergeLog(logs, log)| == |logs| &&
      exists i :: 0 <= i < |logs| && logs[i].id == log.id && MergeLog(logs, log)[i] == log &&
        (forall j :: 0 <= j < |logs| && j != i ==> MergeLog(logs, log)[j] == logs[j])
    ensures (forall j :: 0 <= j < |logs| ==> logs[j].id != log.id) ==>
      MergeLog(logs, log) == logs + [log]
    ensures log in MergeLog(logs, log)
    ensures forall l :: l in logs && l.id != log.id ==> l in MergeLog(logs, log)
  {
    match LogPosition(logs, log.id)
    case Some(i) =>
      var r := MergeLog(logs, log);
      assert r[i] == log;
      forall l | l in logs && l.id != log.id
        ensures l in r
      {
        var j :| 0 <= j < |logs| && logs[j] == l;
        assert r[j] == l;
      }
    case None =>
  }

  /** Merging the same log twice gives what merging it once does. */
  lemma MergeLogIdempotent(logs: seq<HabitLog>, log: HabitLog)
    ensures MergeLog(MergeLog(logs, log), log) == MergeLog(logs, log)
  {
    var r := MergeLog(logs, log);
    match LogPosition(logs, log.id)
    case Some(i) =>
      assert LogPosition(r, log.id) == Some(i) by {
        LogPositionAfterUpdate(logs, i, log);
      }
    case None =>
      assert LogPosition(r, log.id) == Some(|logs|) by {
        LogPositionAppend(logs, log);
      }
  }

  lemma {:induction false} LogPositionAfterUpdate(logs: seq<HabitLog>, i: nat, log: HabitLog)
    requires LogPosition(logs, log.id) == Some(i)
    ensures LogPosition(logs[i := log], log.id) == Some(i)
  {
    if i > 0 {
      LogPositionAfterUpdate(logs[1..], i - 1, log);
      assert logs[i := log][1..] == logs[1..][i - 1 := log];
    }
  }

  lemma {:induction false} LogPositionAppend(logs: seq<HabitLog>, log: HabitLog)
    requires LogPosition(logs, log.id) == None
    ensures LogPosition(logs + [log], log.id) == Some(|logs|)
  {
    if logs != [] {
      LogPositionAppend(logs[1..], log);
      assert (logs + [log])[1..] == logs[1..] + [log];
    }
  }

  /** The page's state: today's habits and today's logs. */
  class TodayBoard {
    var habits: seq<Habit>
    var logs: seq<HabitLog>

    constructor(habits: seq<Habit>, logs: seq<HabitLog>)
      ensures this.habits == habits && this.logs == logs
    {
      this.habits := habits;
      this.logs := logs;
    }

    /** `handleAddHabit` after a successful POST: the returned habit goes last. */
    method AddHabit(habit: Habit)
      modifies this
      ensures habits == old(habits) + [habit]
      ensures logs == old(logs)
    {
      habits := habits + [habit];
    }

    /** `handleLogHabit` after a successful POST: copy the list, overwrite the
        entry with the returned id, or append it. */
    method LogHabit(log: HabitLog)
      modifies this
      ensures logs == MergeLog(old(logs), log)
      ensures habits == old(habits)
    {
      var index := FindLogIndex(logs, log.id);
      if index > -1 {
        var updated := logs;
        updated := updated[index := log];
        logs := updated;
        assert LogPosition(old(logs), log.id) == Some(index) by {
          SamePosition(old(logs), log.id, index);
        }
      } else {
        logs := logs + [log];
      }
    }
  }

  /** The position `findIndex` reports is the one `LogPosition` names. */
  lemma {:induction false} SamePosition(logs: seq<HabitLog>, id: string, i: nat)
    requires i < |logs| && logs[i].id == id
    requires forall j :: 0 <= j < i ==> logs[j].id != id
    ensures LogPosition(logs, id) == Some(i)
  {
    if i > 0 {
      SamePosition(logs[1..], id, i - 1);
    }
  }
}
