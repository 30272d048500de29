# To-do list app: task list, add-task forms and swipe-to-delete, in Dafny

This project models the logic of a small React Native to-do app. The app shows
a login screen or the task screens, depending on whether a user is signed in.
The tasks live in the root component's state, and the screens change them
through two callbacks.

- **Root component** (`App.tsx`, module `App`). The class `AppState` holds the
  two state cells, `user` and `tasks`. `addTask` appends a task. `deleteTask(index)`
  keeps every task whose position differs from `index`. Both updates are pure
  functions (`Appended`, `WithoutIndex`), and the methods call them. `Screens`
  is the choice between the login screen and the three task screens.
- **Add-task form, TypeScript variant** (`pages/AddTaskScreen.tsx`, module
  `AddTaskForm`). The class `AddTaskScreen` has one field per text input and
  one setter per input. `handleAddTask` becomes the method `HandleAddTask`. It
  returns the handler's effects in order: an alert, an `addTask` call, a
  `goBack`. It is proved equal to the pure `Submit`. The reminder rule is
  `CombinedReminder`. It is related to the sum type
  `Reminder = NoReminder | DateOnly | DateAndTime` and to a parser that reads
  the stored text back.
- **Add-task form, JavaScript variant** (`pages/AddTaskScreen.js`, module
  `LegacyAddTaskForm`). This form has the same shape but no reminder time. It
  stores the reminder date exactly as typed. `VariantsDifferOnEmptyReminder`
  says exactly when the two forms act differently.
- **Task list screen** (`pages/TaskListScreen.tsx`, module `TaskList`). The
  two cells `modalVisible` and `selectedTaskIndex` form the confirmation
  dialog's state machine. `Step` and `Run` give it as pure functions. The
  class `TaskListScreen` has one method per event. Its `HandleDeleteConfirm`
  calls the root component's `AppState.DeleteTask`, and a ghost trace records
  every `deleteTask` call. `KeyOf` is the list's `keyExtractor`.

Shared values are in module `Tasks`:

- `Task` has an optional `id` and an optional `reminder`, so the tasks of every
  variant fit one type.
- `Effect` is the list of a handler's outside effects.
- `Categories` holds the picker's three choices.

JavaScript's `!s` on a string field is modelled as `s == ""`. A name made only
of blanks is therefore accepted, as it is in the app.

`App.tsx` keeps its tasks only in local state. Signing out does not clear them:
the authentication callback replaces `user` and leaves `tasks` unchanged
(`AppState.SetUser`).

## Model

| member | source | states |
|---|---|---|
| App.Screens | App.tsx:57-81 | The login screen is offered exactly when no user is signed in. The list, details and add-task screens are offered exactly when a user is signed in. |
| App.Appended | App.tsx:45-47 | Appending gives one more task. The new task is last, and every earlier task stays at its position. |
| App.WithoutIndex | App.tsx:50-52 | The index filter drops exactly position `index` (prefix before it plus suffix after it) when `index` is a position of the list. Any other index leaves the list unchanged. |
| App.WithoutIndexPositions | App.tsx:51 | An in-range delete shortens the list by one. Survivors before the index stay where they were, and survivors after it move down by one. |
| App.WithoutIndexRemovesOne | App.tsx:50-52 | An in-range delete removes one occurrence of `tasks[index]` and nothing else (multiset equality). |
| App.DeleteUndoesAdd | App.tsx:45-52 | Deleting the position just appended restores the list as it was. |
| App.AppState.constructor | App.tsx:33-34 | The app starts with no user and an empty task list. |
| App.AppState.SetUser | App.tsx:37-42 | The auth callback replaces `user` and leaves `tasks` as they were. |
| App.AppState.AddTask | App.tsx:45-47 | `tasks` becomes `Appended(old tasks, t)`. `user` is unchanged. |
| App.AppState.DeleteTask | App.tsx:50-52 | `tasks` becomes `WithoutIndex(old tasks, index)`. `user` is unchanged. |
| AddTaskForm.CombinedReminder | pages/AddTaskScreen.tsx:28-32 | The reminder is undefined exactly when the date is empty. When the date holds no blank, parsing the result gives back the structured reminder (no reminder, date only, date and time). |
| AddTaskForm.CombinedReminderCases | pages/AddTaskScreen.tsx:28-32 | Empty date gives undefined whatever the time. Date and time give `date + " " + time`. Date alone gives the date unchanged. The rule equals the text of the sum-type reminder. |
| AddTaskForm.ReminderTextOfParse | pages/AddTaskScreen.tsx:28-32 | Every stored reminder string (or undefined) is the text of the reminder parsed from it: parsing a stored string loses nothing of it. |
| AddTaskForm.NewTask | pages/AddTaskScreen.tsx:34-40 | The new task has no id. It copies name, description, category and deadline, and carries the combined reminder. |
| AddTaskForm.Submit | pages/AddTaskScreen.tsx:22-43 | With an empty name or deadline, the only effect is the alert: no `addTask`, no `goBack`. Otherwise `addTask` is called exactly once, with the task the form describes, and `goBack` follows it. |
| AddTaskForm.AddTaskScreen.constructor | pages/AddTaskScreen.tsx:15-20 | Every field starts empty except the category, which starts as `Osebno`. The category is one the picker offers. |
| AddTaskForm.AddTaskScreen.SetName | pages/AddTaskScreen.tsx:52 | Only the name changes. |
| AddTaskForm.AddTaskScreen.SetDescription | pages/AddTaskScreen.tsx:60 | Only the description changes. |
| AddTaskForm.AddTaskScreen.SetCategory | pages/AddTaskScreen.tsx:68-72 | Only the category changes, to one of `Osebno`, `Delo`, `Šola`. The picker delivers nothing else. |
| AddTaskForm.AddTaskScreen.SetDeadline | pages/AddTaskScreen.tsx:80 | Only the deadline changes. |
| AddTaskForm.AddTaskScreen.SetReminderDate | pages/AddTaskScreen.tsx:88 | Only the reminder date changes. |
| AddTaskForm.AddTaskScreen.SetReminderTime | pages/AddTaskScreen.tsx:96 | Only the reminder time changes. |
| AddTaskForm.AddTaskScreen.HandleAddTask | pages/AddTaskScreen.tsx:22-43 | The handler's effects are `Submit` of the current fields. Any added task has an offered category. |
| LegacyAddTaskForm.Submit | pages/AddTaskScreen.js:12-28 | With an empty name or deadline, only the alert: no `addTask`, no `goBack`. Otherwise exactly one `addTask`, with all five fields copied and the reminder date passed through verbatim (the empty string too), then `goBack`. |
| LegacyAddTaskForm.VariantsDifferOnEmptyReminder | pages/AddTaskScreen.js:18-24 | The older and the newer form (with no time) have the same effects exactly when the form is rejected or the reminder date is non-empty. The older form stores an empty date as `""`, the newer one as undefined. |
| LegacyAddTaskForm.AddTaskScreen.constructor | pages/AddTaskScreen.js:6-10 | Every field starts empty except the category, which starts as `Osebno`. |
| LegacyAddTaskForm.AddTaskScreen.SetName | pages/AddTaskScreen.js:37 | Only the name changes. |
| LegacyAddTaskForm.AddTaskScreen.SetDescription | pages/AddTaskScreen.js:45 | Only the description changes. |
| LegacyAddTaskForm.AddTaskScreen.SetCategory | pages/AddTaskScreen.js:53-57 | Only the category changes, to one the picker offers. |
| LegacyAddTaskForm.AddTaskScreen.SetDeadline | pages/AddTaskScreen.js:65 | Only the deadline changes. |
| LegacyAddTaskForm.AddTaskScreen.SetReminderDate | pages/AddTaskScreen.js:73 | Only the reminder date changes. |
| LegacyAddTaskForm.AddTaskScreen.HandleAddTask | pages/AddTaskScreen.js:12-28 | The handler's effects are the older `Submit` of the current fields. Any added task has an offered category. |
| TaskList.Step | pages/TaskListScreen.tsx:30-51 | Swiping row `i` selects `i` (overwriting any earlier choice) and shows the dialog. Confirming issues the delete of the held index (none without one) and resets both cells. Closing hides the dialog and keeps the selection. Only confirm deletes. After every event, from any state, a shown dialog has a selected row. |
| TaskList.ConfirmWhileShownDeletes | pages/TaskListScreen.tsx:30-33 | Confirming while the dialog is shown always deletes the selected row. |
| TaskList.DeletedRowsWereSwiped | pages/TaskListScreen.tsx:30-51 | Every deleted index, and the index still pending, belongs to a row that was swiped open. |
| TaskList.DeletesAtMostSwipes | pages/TaskListScreen.tsx:30-51 | The deletions issued, plus the one pending, never outnumber the swipes. |
| TaskList.AfterSwipeAndCloses | pages/TaskListScreen.tsx:48-89 | After a swipe on row `i` and any number of cancels or back-closes, `i` is still selected and no delete was issued. |
| TaskList.ConfirmDeletesLatestSwipe | pages/TaskListScreen.tsx:30-51 | Confirm deletes exactly the most recently swiped row, once, whatever came before, then returns to the initial state. |
| TaskList.LaterSwipeWins | pages/TaskListScreen.tsx:48-51 | Swiping row A, then row B, then confirming deletes B and never A. |
| TaskList.DecimalRoundTrip | pages/TaskListScreen.tsx:69 | The decimal string of an index reads back as that index. |
| TaskList.DecimalString | pages/TaskListScreen.tsx:69 | `idx.toString()`: a non-empty digit string with no leading zero, which is "0" exactly for index 0. |
| TaskList.KeyOf | pages/TaskListScreen.tsx:69 | A row's key is its `id` when it has one, otherwise the canonical decimal string of its index: digits denoting the index, no leading zero, "0" exactly for index 0. |
| TaskList.KeysDistinctWithoutIds | pages/TaskListScreen.tsx:69 | Two different rows without ids get different keys. |
| TaskList.TaskListScreen.constructor | pages/TaskListScreen.tsx:27-28 | The dialog starts hidden with no row selected and no delete issued. |
| TaskList.TaskListScreen.OnSwipeableRightOpen | pages/TaskListScreen.tsx:48-51 | Row `i` becomes the one selected and the dialog shows. No delete is issued. |
| TaskList.TaskListScreen.HandleDeleteConfirm | pages/TaskListScreen.tsx:30-36 | With a held index `i`, `deleteTask(i)` is called exactly once. The app's list becomes `WithoutIndex(old list, i)`. With no index, nothing is called and the list is unchanged. Afterwards the dialog is hidden and the selection cleared. |
| TaskList.TaskListScreen.CloseModal | pages/TaskListScreen.tsx:81-89 | Cancel and back-close hide the dialog. They call no delete and keep `selectedTaskIndex`. |

## Left out

- pages/LoginScreen.tsx: signing in is one call into the authentication SDK plus navigation. It is not modelled.
- pages/SettingsScreen.tsx: persisting one flag and subscribing to a notification topic are asynchronous SDK calls. They are not modelled.
- pages/TaskDetailsScreen.tsx, pages/TaskDetailsScreen.js and pages/TaskListScreen.js only display data. pages/types.ts only declares types; its `Task` shape is generalised in `Tasks.Task`.
- The authentication listener's subscription and unsubscription (App.tsx:37-42) are external. The user it reports is an input to `AppState.SetUser`.
- The sign-out button (pages/TaskListScreen.tsx:66) calls `signOut` on the `@react-native-firebase/auth` module, while the root component listens through `firebase/auth` with the `auth` object of its own configuration (App.tsx:5-7, App.tsx:38). Nothing in this code connects the two. The model assumes that a sign-out reaches the root component as a later `SetUser(None)`; that link is not what the code shows.
- Navigation to the details and add-task screens, alerts, gestures, the modal's rendering and styles are UI plumbing. Only the events they deliver are modelled.
- The confirm button can be pressed only while the dialog shows. `HandleDeleteConfirm` does not require this, so its no-selection branch is kept. `ConfirmWhileShownDeletes` shows that branch is not reached from a shown dialog.
- App.WithoutIndex: `index` is an integer. A fractional JavaScript number matches no position and would leave the list unchanged; that case is not modelled.
- AddTaskForm.CombinedReminder: the read-back holds only for dates without a blank. A date typed with a blank makes the combined string ambiguous.
- React's batching of state updates and re-rendering is not modelled. Each handler's updates are applied in order, as one step.
- No task store, realtime subscription or server-side add/delete appears in this code, so none is modelled.
