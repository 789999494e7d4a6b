/** The request the motivation button of
    `src/components/habits/motivation-button.tsx` builds from a habit and
    its logs before asking for a tip. */
module Motivation {
  import opened Wrappers
  import opened HabitTypes
  import SeqUtil
  import Text

  /** `completionRate` as an exact fraction: completed logs over all logs,
      or 0/1 when there are none. */
  datatype Rate = Rate(completed: nat, total: nat)

  datatype MotivationInput = MotivationInput(habitName: string, completionRate: Rate, reasonsForMissing: string)

  const NoReasons: string := "No reasons provided."

  /** A missed log whose reason is present and non-empty (a truthy `reasonForMiss`). */
  predicate HasReason(l: HabitLog) {
    !l.completed && l.reasonForMiss.Some? && l.reasonForMiss.value != ""
  }

  function CompletionRate(logs: seq<HabitLog>): (r: Rate)
    ensures 0 < r.total && r.completed <= r.total
    ensures |logs| == 0 ==> r.completed == 0
    ensures |logs| > 0 ==> r.total == |logs| && r.completed == |SeqUtil.Filter(logs, (l: HabitLog) => l.completed)|
  {
    var count := |SeqUtil.Filter(logs, (l: HabitLog) => l.completed)|;
    if |logs| > 0 then Rate(count, |logs|) else Rate(0, 1)
  }

  /** The reasons of the missed logs that give one, in log order. */
  function MissReasons(logs: seq<HabitLog>): (r: seq<string>)
    ensures |r| == |SeqUtil.Filter(logs, HasReason)|
    ensures forall i :: 0 <= i < |r| ==>
      SeqUtil.Filter(logs, HasReason)[i].reasonForMiss == Some(r[i]) && r[i] != ""
  {
    if logs == [] then []
    else
      var h := logs[..|logs| - 1];
      var l := logs[|logs| - 1];
      MissReasons(h) + if HasReason(l) then [l.reasonForMiss.value] else []
  }

  /** The request: the habit's name, the rate, and the reasons joined with
      ", ", or a fixed text when no log gives one. */
  function BuildInput(habit: Habit, logs: seq<HabitLog>): (inp: MotivationInput)
    ensures inp.habitName == habit.name
    ensures inp.completionRate == CompletionRate(logs)
    ensures |MissReasons(logs)| == 0 ==> inp.reasonsForMissing == NoReasons
    ensures |MissReasons(logs)| > 0 ==> inp.reasonsForMissing == Text.Join(MissReasons(logs), ", ")
  {
    var joined := Text.Join(MissReasons(logs), ", ");
    assert |MissReasons(logs)| > 0 ==> joined != "" by {
      if |MissReasons(logs)| > 0 {
        Text.JoinStartsWith(MissReasons(logs), ", ");
      }
    }
    MotivationInput(habit.name, CompletionRate(logs), if joined != "" then joined else NoReasons)
  }

  /** Every reason sent is the reason of a missed log, and every missed log
      with a non-empty reason contributes it. */
  lemma {:induction false} ReasonsAreMissedLogs(logs: seq<HabitLog>)
    ensures forall i :: 0 <= i < |MissReasons(logs)| ==>
      exists j :: 0 <= j < |logs| && !logs[j].completed && logs[j].reasonForMiss == Some(MissReasons(logs)[i])
    ensures forall l :: l in logs && HasReason(l) ==> l.reasonForMiss.value in MissReasons(logs)
  {
    var f := SeqUtil.Filter(logs, HasReason);
    var r := MissReasons(logs);
    SeqUtil.FilterMembers(logs, HasReason);
    forall i | 0 <= i < |r|
      ensures exists j :: 0 <= j < |logs| && !logs[j].completed && logs[j].reasonForMiss == Some(r[i])
    {
      ReasonSource(logs, i);
    }
    forall l | l in logs && HasReason(l)
      ensures l.reasonForMiss.value in r
    {
      assert l in f;
      var i :| 0 <= i < |f| && f[i] == l;
      assert r[i] == l.reasonForMiss.value;
      assert r[i] in r;
    }
  }

  lemma ReasonSource(logs: seq<HabitLog>, i: nat)
    requires i < |MissReasons(logs)|
    ensures exists j :: 0 <= j < |logs| && !logs[j].completed && logs[j].reasonForMiss == Some(MissReasons(logs)[i])
  {
    var f := SeqUtil.Filter(logs, HasReason);
    SeqUtil.FilterMembers(logs, HasReason);
    assert f[i] in f && HasReason(f[i]);
    var j :| 0 <= j < |logs| && logs[j] == f[i];
    assert !logs[j].completed && logs[j].reasonForMiss == Some(MissReasons(logs)[i]);
  }
}
