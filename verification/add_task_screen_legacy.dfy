/**
 * The older add-task form (the JavaScript variant): five text fields, no
 * reminder time, and the reminder date stored exactly as typed.
 */
module LegacyAddTaskForm {
  import opened Tasks
  import AddTaskForm

  /** The values of the older form's fields at one moment. */
  datatype Fields = Fields(
    name: string,
    description: string,
    category: string,
    deadline: string,
    reminderDate: string)

  /** The form may be submitted: a name and a deadline were entered. */
  predicate Complete(f: Fields)
  {
    f.name != "" && f.deadline != ""
  }

  /** `t` carries the form's five fields unchanged and no identifier yet. */
  predicate Copies(t: Task, f: Fields)
  {
    && t.id == None
    && t.name == f.name
    && t.description == f.description
    && t.category == f.category
    && t.deadline == f.deadline
  }

  /**
   * What `handleAddTask` does in the older form: the alert alone when a
   * required field is empty, otherwise exactly one `addTask` call, with the
   * reminder date passed through as typed (even when empty), then going back.
   */
  function Submit(f: Fields): (effects: seq<Effect>)
    ensures AddTaskCalls(effects) == (if Complete(f) then 1 else 0)
    ensures !Complete(f) ==> effects == [ShowAlert(RequiredFieldsMessage)]
    ensures Complete(f) ==> |effects| == 2 && effects[0].CallAddTask? && effects[1] == CallGoBack
    ensures Complete(f) ==> Copies(effects[0].task, f)
    ensures Complete(f) ==> effects[0].task.reminder == Some(f.reminderDate)
  {
    if !Complete(f) then
      [ShowAlert(RequiredFieldsMessage)]
    else
      var newTask := Task(None, f.name, f.description, f.category, f.deadline, Some(f.reminderDate));
      var effects := [CallAddTask(newTask), CallGoBack];
      assert effects[..1] == [CallAddTask(newTask)] && effects[..1][..0] == [];
      assert AddTaskCalls(effects[..1]) == 1;
      effects
  }

  /** The older form's fields as the newer form would hold them, with no reminder time. */
  function Upgraded(f: Fields): AddTaskForm.Fields
  {
    AddTaskForm.Fields(f.name, f.description, f.category, f.deadline, f.reminderDate, "")
  }

  /**
   * The two forms behave alike, except that an empty reminder date is stored
   * by the older one as the empty string and by the newer one as undefined.
   */
  lemma VariantsDifferOnEmptyReminder(f: Fields)
    ensures Submit(f) == AddTaskForm.Submit(Upgraded(f)) <==> !Complete(f) || f.reminderDate != ""
  {
    if Complete(f) {
      var g := Upgraded(f);
      AddTaskForm.CombinedReminderCases(g.reminderDate, g.reminderTime);
      if f.reminderDate == "" {
        assert Submit(f)[0] != AddTaskForm.Submit(g)[0];
      }
    }
  }

  /** The screen's state cells, one per field. */
  class AddTaskScreen {
    var name: string
    var description: string
    var category: string
    var deadline: string
    var reminderDate: string

    /** The category is always one the picker offers. */
    ghost predicate Valid()
      reads this
    {
      category in Categories
    }

    /** The fields' current values. */
    function CurrentFields(): Fields
      reads this
    {
      Fields(name, description, category, deadline, reminderDate)
    }

    /** Every field starts empty, except the category, which starts as the default one. */
    constructor ()
      ensures Valid()
      ensures CurrentFields() == Fields("", "", DefaultCategory, "", "")
    {
      name, description, category := "", "", DefaultCategory;
      deadline, reminderDate := "", "";
    }

    method SetName(value: string)
      modifies this
      ensures CurrentFields() == old(CurrentFields()).(name := value)
    {
      name := value;
    }

    method SetDescription(value: string)
      modifies this
      ensures CurrentFields() == old(CurrentFields()).(description := value)
    {
      description := value;
    }

    /** The picker only ever delivers one of its own items. */
    method SetCategory(value: string)
      requires value in Categories
      modifies this
      ensures Valid()
      ensures CurrentFields() == old(CurrentFields()).(category := value)
    {
      category := value;
    }

    method SetDeadline(value: string)
      modifies this
      ensures CurrentFields() == old(CurrentFields()).(deadline := value)
    {
      deadline := value;
    }

    method SetReminderDate(value: string)
      modifies this
      ensures CurrentFields() == old(CurrentFields()).(reminderDate := value)
    {
      reminderDate := value;
    }

    /**
     * `handleAddTask`: the effects of pressing the button, in order. Any task
     * it adds carries a category the picker offers.
     */
    method HandleAddTask() returns (effects: seq<Effect>)
      requires Valid()
      ensures effects == Submit(CurrentFields())
      ensures forall e <- effects :: e.CallAddTask? ==> e.task.category in Categories
    {
      if name == "" || deadline == "" {
        effects := [ShowAlert(RequiredFieldsMessage)];
        return;
      }
      var newTask := Task(None, name, description, category, deadline, Some(reminderDate));
      effects := [CallAddTask(newTask), CallGoBack];
    }
  }
}
