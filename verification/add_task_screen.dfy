/**
 * The add-task form (the TypeScript variant): six text fields, a check that
 * the required ones are filled in, the reminder built from an optional date
 * and an optional time, and on success one `addTask` call followed by
 * navigating back.
 */
module AddTaskForm {
  import opened Tasks

  /** A reminder as a sum type, instead of an optional concatenated string. */
  datatype Reminder = NoReminder | DateOnly(date: string) | DateAndTime(date: string, time: string)

  /** The structured reminder the form's two reminder fields describe. */
  function ReminderOf(date: string, time: string): Reminder
  {
    if date == "" then NoReminder
    else if time == "" then DateOnly(date)
    else DateAndTime(date, time)
  }

  /** The text a reminder is stored as: the date, a blank and the time. */
  function ReminderText(r: Reminder): Option<string>
  {
    match r
    case NoReminder => None
    case DateOnly(d) => Some(d)
    case DateAndTime(d, t) => Some(d + " " + t)
  }

  /** The position of the first blank in `s`, or `|s|` when there is none. */
  function FirstBlank(s: string): (r: nat)
    ensures r <= |s|
    ensures r < |s| ==> s[r] == ' '
    ensures forall k :: 0 <= k < r ==> s[k] != ' '
  {
    if s == [] then 0
    else if s[0] == ' ' then 0
    else 1 + FirstBlank(s[1..])
  }

  /** Reads a stored reminder back: the date runs up to the first blank, the time is the rest. */
  function ParseReminder(stored: Option<string>): Reminder
  {
    match stored
    case None => NoReminder
    case Some(s) =>
      var i := FirstBlank(s);
      if i == |s| then DateOnly(s) else DateAndTime(s[..i], s[i + 1..])
  }

  /**
   * `combinedReminder`: undefined without a date, the date alone without a
   * time, otherwise the date, a blank and the time. When the date holds no
   * blank (a YYYY-MM-DD date does not), the structured reminder can be read
   * back from the string.
   */
  function CombinedReminder(date: string, time: string): (r: Option<string>)
    ensures r.None? <==> date == ""
    ensures ' ' !in date ==> ParseReminder(r) == ReminderOf(date, time)
  {
    if date != "" then
      if time != "" then
        var s := date + " " + time;
        assert ' ' !in date ==> FirstBlank(s) == |date| by {
          assert s[|date|] == ' ';
          assert forall k :: 0 <= k < |date| ==> s[k] == date[k];
        }
        assert s[..|date|] == date && s[|date| + 1..] == time;
        Some(s)
      else
        Some(date)
    else
      None
  }

  /** The three cases of the reminder rule, one by one. */
  lemma CombinedReminderCases(date: string, time: string)
    ensures date == "" ==> CombinedReminder(date, time) == None
    ensures date != "" && time != "" ==> CombinedReminder(date, time) == Some(date + " " + time)
    ensures date != "" && time == "" ==> CombinedReminder(date, time) == Some(date)
    ensures CombinedReminder(date, time) == ReminderText(ReminderOf(date, time))
  {
  }

  /** Every stored reminder text is the text of the reminder parsed from it. */
  lemma {:induction false} ReminderTextOfParse(stored: Option<string>)
    ensures ReminderText(ParseReminder(stored)) == stored
  {
    match stored
    case None =>
    case Some(s) =>
      var i := FirstBlank(s);
      if i < |s| {
        assert s == s[..i] + " " + s[i + 1..];
      }
  }

  /** The values of the form's fields at one moment. */
  datatype Fields = Fields(
    name: string,
    description: string,
    category: string,
    deadline: string,
    reminderDate: string,
    reminderTime: string)

  /** The form may be submitted: a name and a deadline were entered. */
  predicate Complete(f: Fields)
  {
    f.name != "" && f.deadline != ""
  }

  /** `t` is the task the form describes: fields copied, reminder combined, no identifier yet. */
  predicate Describes(t: Task, f: Fields)
  {
    && t.id == None
    && t.name == f.name
    && t.description == f.description
    && t.category == f.category
    && t.deadline == f.deadline
    && t.reminder == CombinedReminder(f.reminderDate, f.reminderTime)
  }

  /** The task `handleAddTask` passes to `addTask`. */
  function NewTask(f: Fields): (t: Task)
    ensures Describes(t, f)
  {
    Task(None, f.name, f.description, f.category, f.deadline, CombinedReminder(f.reminderDate, f.reminderTime))
  }

  /**
   * What `handleAddTask` does: with a required field empty it only shows the
   * alert; otherwise it calls `addTask` exactly once, with the task the form
   * describes, and then navigates back.
   */
  function Submit(f: Fields): (effects: seq<Effect>)
    ensures AddTaskCalls(effects) == (if Complete(f) then 1 else 0)
    ensures !Complete(f) ==> effects == [ShowAlert(RequiredFieldsMessage)]
    ensures Complete(f) ==> |effects| == 2 && effects[0].CallAddTask? && effects[1] == CallGoBack
    ensures Complete(f) ==> Describes(effects[0].task, f)
  {
    if !Complete(f) then
      [ShowAlert(RequiredFieldsMessage)]
    else
      var effects := [CallAddTask(NewTask(f)), CallGoBack];
      assert effects[..1] == [CallAddTask(NewTask(f))] && effects[..1][..0] == [];
      assert AddTaskCalls(effects[..1]) == 1;
      effects
  }

  /** The screen's state cells, one per field. */
  class AddTaskScreen {
    var name: string
    var description: string
    var category: string
    var deadline: string
    var reminderDate: string
    var reminderTime: string

    /** The category is always one the picker offers. */
    ghost predicate Valid()
      reads this
    {
      category in Categories
    }

    /** The fields' current values. */
    function CurrentFields(): Fields
      reads this
    {
      Fields(name, description, category, deadline, reminderDate, reminderTime)
    }

    /** Every field starts empty, except the category, which starts as the default one. */
    constructor ()
      ensures Valid()
      ensures CurrentFields() == Fields("", "", DefaultCategory, "", "", "")
    {
      name, description, category := "", "", DefaultCategory;
      deadline, reminderDate, reminderTime := "", "", "";
    }

    method SetName(value: string)
      modifies this
      ensures CurrentFields() == old(CurrentFields()).(name := value)
    {
      name := value;
    }

    method SetDescription(value: string)
      modifies this
      ensures CurrentFields() == old(CurrentFields()).(description := value)
    {
      description := value;
    }

    /** The picker only ever delivers one of its own items. */
    method SetCategory(value: string)
      requires value in Categories
      modifies this
      ensures Valid()
      ensures CurrentFields() == old(CurrentFields()).(category := value)
    {
      category := value;
    }

    method SetDeadline(value: string)
      modifies this
      ensures CurrentFields() == old(CurrentFields()).(deadline := value)
    {
      deadline := value;
    }

    method SetReminderDate(value: string)
      modifies this
      ensures CurrentFields() == old(CurrentFields()).(reminderDate := value)
    {
      reminderDate := value;
    }

    method SetReminderTime(value: string)
      modifies this
      ensures CurrentFields() == old(CurrentFields()).(reminderTime := value)
    {
      reminderTime := value;
    }

    /**
     * `handleAddTask`: the effects of pressing the button, in order. Any task
     * it adds carries a category the picker offers.
     */
    method HandleAddTask() returns (effects: seq<Effect>)
      requires Valid()
      ensures effects == Submit(CurrentFields())
      ensures forall e <- effects :: e.CallAddTask? ==> e.task.category in Categories
    {
      if name == "" || deadline == "" {
        effects := [ShowAlert(RequiredFieldsMessage)];
        return;
      }
      var combinedReminder := CombinedReminder(reminderDate, reminderTime);
      var newTask := Task(None, name, description, category, deadline, combinedReminder);
      effects := [CallAddTask(newTask), CallGoBack];
    }
  }
}
