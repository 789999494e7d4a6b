/** The daily task list of `src/app/tasks/page.tsx`: add (newest first),
    toggle, delete, and the pending/completed split of the list. */
module TasksPage {
  import Text
  import SeqUtil

  datatype Task = Task(id: string, text: string, completed: bool)

  /** `task-${now}`. */
  function TaskId(now: nat): string {
    "task-" + Text.NatToString(now)
  }

  /** The list after submitting `input`: blank input leaves it alone,
      anything else is trimmed and put in front as an open task. */
  function AddTask(tasks: seq<Task>, input: string, now: nat): seq<Task> {
    if Text.Trim(input) == "" then tasks
    else [Task(TaskId(now), Text.Trim(input), false)] + tasks
  }

  /** Input made only of whitespace (or nothing) is exactly what leaves the
      list alone; other input adds one open task in front, carrying the input
      without its surrounding whitespace, and keeps the rest in order. */
  lemma AddTaskShape(tasks: seq<Task>, input: string, now: nat)
    ensures AddTask(tasks, input, now) == tasks <==>
      forall i :: 0 <= i < |input| ==> Text.IsWhitespace(input[i])
    ensures (exists i :: 0 <= i < |input| && !Text.IsWhitespace(input[i])) ==>
      var r := AddTask(tasks, input, now);
      |r| == |tasks| + 1 && r[1..] == tasks && r[0].id == TaskId(now) &&
      r[0].text == Text.Trim(input) && r[0].text != "" && !r[0].completed
  {
    Text.TrimEmpty(input);
    var r := AddTask(tasks, input, now);
    if Text.Trim(input) != "" {
      assert |r| == |tasks| + 1;
      assert r[1..] == tasks;
    }
  }

  /** `handleToggleTask`. */
  function ToggleTask(tasks: seq<Task>, id: string): (r: seq<Task>)
    ensures |r| == |tasks|
  {
    seq(|tasks|, i requires 0 <= i < |tasks| =>
      if tasks[i].id == id then tasks[i].(completed := !tasks[i].completed) else tasks[i])
  }

  /** Toggling flips exactly the tasks with the id and keeps their id and text. */
  lemma ToggleTaskShape(tasks: seq<Task>, id: string)
    ensures forall i :: 0 <= i < |tasks| ==>
      ToggleTask(tasks, id)[i].id == tasks[i].id && ToggleTask(tasks, id)[i].text == tasks[i].text &&
      (ToggleTask(tasks, id)[i].completed != tasks[i].completed <==> tasks[i].id == id)
  {
  }

  /** Toggling twice restores the list. */
  lemma ToggleTaskTwice(tasks: seq<Task>, id: string)
    ensures ToggleTask(ToggleTask(tasks, id), id) == tasks
  {
    var twice := ToggleTask(ToggleTask(tasks, id), id);
    assert forall i :: 0 <= i < |tasks| ==> twice[i] == tasks[i];
  }

  /** `handleDeleteTask`. */
  function DeleteTask(tasks: seq<Task>, id: string): seq<Task> {
    SeqUtil.Filter(tasks, (t: Task) => t.id != id)
  }

  /** Deleting removes the tasks with the id and keeps every other one. */
  lemma DeleteTaskShape(tasks: seq<Task>, id: string)
    ensures forall t :: t in DeleteTask(tasks, id) <==> t in tasks && t.id != id
    ensures (forall i :: 0 <= i < |tasks| ==> tasks[i].id != id) ==> DeleteTask(tasks, id) == tasks
  {
    SeqUtil.FilterMembers(tasks, (t: Task) => t.id != id);
    if forall i :: 0 <= i < |tasks| ==> tasks[i].id != id {
      SeqUtil.FilterAll(tasks, (t: Task) => t.id != id);
    }
  }

  function Pending(tasks: seq<Task>): seq<Task> {
    SeqUtil.Filter(tasks, (t: Task) => !t.completed)
  }

  function Completed(tasks: seq<Task>): seq<Task> {
    SeqUtil.Filter(tasks, (t: Task) => t.completed)
  }

  /** The two lists partition the tasks: each task is in exactly the one
      that matches its flag, and together they hold every task once. */
  lemma PendingCompletedPartition(tasks: seq<Task>)
    ensures |Pending(tasks)| + |Completed(tasks)| == |tasks|
    ensures multiset(Pending(tasks)) + multiset(Completed(tasks)) == multiset(tasks)
    ensures forall t :: t in Pending(tasks) <==> t in tasks && !t.completed
    ensures forall t :: t in Completed(tasks) <==> t in tasks && t.completed
  {
    SeqUtil.FilterPartition(tasks, (t: Task) => !t.completed, (t: Task) => t.completed);
    SeqUtil.FilterMembers(tasks, (t: Task) => !t.completed);
    SeqUtil.FilterMembers(tasks, (t: Task) => t.completed);
  }

  /** The page's state: the list and the input box. */
  class TaskBoard {
    var tasks: seq<Task>
    var newTask: string

    constructor()
      ensures tasks == [] && newTask == ""
    {
      tasks := [];
      newTask := "";
    }

    method TypeTask(s: string)
      modifies this
      ensures newTask == s && tasks == old(tasks)
    {
      newTask := s;
    }

    /** `handleAddTask`: a rejected input stays in the box; an accepted one
        is added and the box is cleared. */
    method SubmitTask(now: nat)
      modifies this
      ensures tasks == AddTask(old(tasks), old(newTask), now)
      ensures newTask == if Text.Trim(old(newTask)) == "" then old(newTask) else ""
    {
      if Text.Trim(newTask) == "" {
        return;
      }
      var task := Task(TaskId(now), Text.Trim(newTask), false);
      tasks := [task] + tasks;
      newTask := "";
    }

    method Toggle(id: string)
      modifies this
      ensures tasks == ToggleTask(old(tasks), id) && newTask == old(newTask)
    {
      tasks := ToggleTask(tasks, id);
    }

    method Delete(id: string)
      modifies this
      ensures tasks == DeleteTask(old(tasks), id) && newTask == old(newTask)
    {
      tasks := DeleteTask(tasks, id);
    }
  }
}
