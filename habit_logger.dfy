/** The log buttons and note dialog of
    `src/components/molecules/habit-logger.tsx`: a small state machine over
    the dialog's open flag, its type and its text, plus the saving flag. */
module HabitLogger {
  import opened Wrappers
  import opened HabitTypes

  /** The dialog's purpose: a note for a new completed or missed log, or an
      edit of today's log. */
  datatype DialogType = Journal | Reason | EditJournal | EditReason

  /** The optional texts sent with a log. */
  datatype Details = Details(journal: Option<string>, reasonForMiss: Option<string>)

  /** One call of the `onLogHabit` callback. */
  datatype LogCall = LogCall(habitId: string, date: string, completed: bool, details: Details)

  /** `text || ''` for an optional text. */
  function OrEmpty(s: Option<string>): string {
    match s
    case Some(t) => t
    case None => ""
  }

  /** The text the dialog opens with: the current note of today's log when
      editing it, empty for a new log. */
  function Prefill(t: DialogType, todayLog: Option<HabitLog>): (text: string)
    ensures (t == Journal || t == Reason || todayLog.None?) ==> text == ""
  {
    match t
    case EditJournal => if todayLog.Some? then OrEmpty(todayLog.value.journal) else ""
    case EditReason => if todayLog.Some? then OrEmpty(todayLog.value.reasonForMiss) else ""
    case _ => ""
  }

  /** The log call a save makes: none without a dialog type; otherwise the
      log is completed exactly for the two journal types, and the text goes
      to the journal of a completed log and to the reason of a missed one. */
  function SaveCall(habitId: string, date: string, kind: Option<DialogType>, text: string): (r: Option<LogCall>)
    ensures r.None? <==> kind.None?
    ensures r.Some? ==> r.value.habitId == habitId && r.value.date == date
    ensures r.Some? ==> (r.value.completed <==> kind.value == Journal || kind.value == EditJournal)
    ensures r.Some? && r.value.completed ==> r.value.details == Details(Some(text), None)
    ensures r.Some? && !r.value.completed ==> r.value.details == Details(None, Some(text))
  {
    match kind
    case None => None
    case Some(t) =>
      var completed := t == Journal || t == EditJournal;
      Some(LogCall(habitId, date, completed,
        if completed then Details(Some(text), None) else Details(None, Some(text))))
  }

  /** The edit button's choice for an existing log: edit the journal of a
      completed log, the reason of a missed one. */
  function EditDialogType(todayLog: HabitLog): (t: DialogType)
    ensures t == EditJournal <==> todayLog.completed
    ensures t == EditReason <==> !todayLog.completed
  {
    if todayLog.completed then EditJournal else EditReason
  }

  /** Opening the edit dialog on today's log and saving without typing sends
      the log back with its status and its note unchanged (a missing note
      becomes the empty text). */
  lemma ResaveKeepsLog(habitId: string, date: string, log: HabitLog)
    ensures var t := EditDialogType(log);
      SaveCall(habitId, date, Some(t), Prefill(t, Some(log))) ==
        Some(LogCall(habitId, date, log.completed,
          if log.completed then Details(Some(OrEmpty(log.journal)), None)
          else Details(None, Some(OrEmpty(log.reasonForMiss)))))
  {
  }

  class Logger {
    const habitId: string
    const date: string
    const todayLog: Option<HabitLog>
    var open: bool
    var kind: Option<DialogType>
    var text: string
    var isSaving: bool

    /** The dialog starts closed, without a type and with no text. */
    constructor(habitId: string, date: string, todayLog: Option<HabitLog>)
      ensures this.habitId == habitId && this.date == date && this.todayLog == todayLog
      ensures !open && kind == None && text == "" && !isSaving
    {
      this.habitId := habitId;
      this.date := date;
      this.todayLog := todayLog;
      open := false;
      kind := None;
      text := "";
      isSaving := false;
    }

    /** `handleOpenDialog`: always opens, with the prefilled text. */
    method OpenDialog(t: DialogType)
      modifies this
      ensures open && kind == Some(t) && text == Prefill(t, todayLog)
      ensures isSaving == old(isSaving)
    {
      var prefill := "";
      if t == EditJournal {
        prefill := if todayLog.Some? then OrEmpty(todayLog.value.journal) else "";
      } else if t == EditReason {
        prefill := if todayLog.Some? then OrEmpty(todayLog.value.reasonForMiss) else "";
      }
      open, kind, text := true, Some(t), prefill;
    }

    /** The "edit" button shown next to an existing log. */
    method OpenEdit()
      requires todayLog.Some?
      modifies this
      ensures open && kind == Some(EditDialogType(todayLog.value))
      ensures text == Prefill(EditDialogType(todayLog.value), todayLog)
      ensures isSaving == old(isSaving)
    {
      OpenDialog(if todayLog.value.completed then EditJournal else EditReason);
    }

    /** `handleSave`: makes the log call when a type is set (raising
        `isSaving` around it), then always resets the dialog. */
    method Save() returns (call: Option<LogCall>)
      modifies this
      ensures call == SaveCall(habitId, date, old(kind), old(text))
      ensures !open && kind == None && text == ""
      ensures isSaving == (if old(kind).Some? then false else old(isSaving))
    {
      call := None;
      if kind.Some? {
        isSaving := true;
        var completed := kind.value == Journal || kind.value == EditJournal;
        var details := if completed then Details(Some(text), None) else Details(None, Some(text));
        call := Some(LogCall(habitId, date, completed, details));
        isSaving := false;
      }
      open, kind, text := false, None, "";
    }

    /** The radio switch of the edit dialog: changes the type and clears the text. */
    method SelectEditOption(t: DialogType)
      requires t == EditJournal || t == EditReason
      modifies this
      ensures kind == Some(t) && text == ""
      ensures open == old(open) && isSaving == old(isSaving)
    {
      kind, text := Some(t), "";
    }

    /** Typing in the text area. */
    method EditText(s: string)
      modifies this
      ensures text == s
      ensures open == old(open) && kind == old(kind) && isSaving == old(isSaving)
    {
      text := s;
    }

    /** The dialog's own open/close control (closing keeps type and text). */
    method SetOpen(o: bool)
      modifies this
      ensures open == o
      ensures kind == old(kind) && text == old(text) && isSaving == old(isSaving)
    {
      open := o;
    }

    /** Which dialog is visible: the edit dialog next to an existing log, the
        note dialog otherwise, each only for its own two types. */
    predicate DialogShown()
      reads this
    {
      open &&
      if todayLog.Some? then kind == Some(EditJournal) || kind == Some(EditReason)
      else kind == Some(Journal) || kind == Some(Reason)
    }
  }
}
