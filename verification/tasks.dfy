/** Values shared by the to-do app's root component and its screens. */
module Tasks {

  /** The usual Some/None wrapper; None stands for JavaScript's `undefined`/`null`. */
  datatype Option<+T> = None | Some(value: T)

  /**
   * One to-do item. The app's variants disagree on the shape of a task: the
   * root component declares no identifier and a string reminder, the list
   * screen reads an optional `id`, and the newer add-task form may leave the
   * reminder undefined. Both optional parts are therefore `Option`s, so that
   * every variant's tasks fit this one type.
   */
  datatype Task = Task(
    id: Option<string>,
    name: string,
    description: string,
    category: string,
    deadline: string,
    reminder: Option<string>)

  /** What an add-task handler does to the outside world, in order. */
  datatype Effect =
    | ShowAlert(message: string)  // a blocking alert
    | CallAddTask(task: Task)     // the `addTask` callback handed down by the root component
    | CallGoBack                  // `navigation.goBack()`

  /** The alert both add-task forms show when a required field is empty. */
  const RequiredFieldsMessage: string := "Prosimo, izpolnite obvezna polja (ime in rok opravila)."

  /** The number of `addTask` calls in a list of effects. */
  function AddTaskCalls(effects: seq<Effect>): nat
  {
    if effects == [] then 0
    else AddTaskCalls(effects[..|effects| - 1]) + (if effects[|effects| - 1].CallAddTask? then 1 else 0)
  }

  /** The picker's choices, in the order the form lists them. */
  const Categories: seq<string> := ["Osebno", "Delo", "Šola"]

  /** The category both forms start with. */
  const DefaultCategory: string := "Osebno"
}
