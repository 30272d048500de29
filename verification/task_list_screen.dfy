/**
 * The task list screen: the list's row keys and the swipe-to-delete
 * confirmation, two state cells (`modalVisible`, `selectedTaskIndex`) driven
 * by three events: a row swiped open, the dialog confirmed, the dialog closed.
 */
module TaskList {
  import opened Tasks
  import App

  /** The confirmation dialog's state: whether it shows, and the row it would delete. */
  datatype Confirmation = Confirmation(modalVisible: bool, selected: Option<nat>)

  /** On mount the dialog is hidden and no row is selected. */
  const Initial: Confirmation := Confirmation(false, None)

  /**
   * The events the screen reacts to. `Close` is both the cancel button and
   * the platform's back gesture, which do the same thing.
   */
  datatype Event = SwipeOpen(index: nat) | Confirm | Close

  /** Whenever the dialog shows, a row is selected for it. */
  predicate Consistent(c: Confirmation)
  {
    c.modalVisible ==> c.selected.Some?
  }

  /**
   * One event: the new dialog state and the `deleteTask` call it issues, if
   * any. Swiping selects the row and shows the dialog; confirming deletes the
   * selected row, if there is one, and resets both cells; closing only hides
   * the dialog and keeps the selection. Whatever the state before, the dialog
   * never shows afterwards without a selected row.
   */
  function Step(c: Confirmation, e: Event): (r: (Confirmation, Option<nat>))
    ensures Consistent(r.0)
    ensures r.1.Some? ==> e == Confirm && r.1 == c.selected
    ensures e == Confirm ==> r.1 == c.selected && r.0 == Initial
    ensures e.Close? ==> r.0 == c.(modalVisible := false)
    ensures e.SwipeOpen? ==> r.0 == Confirmation(true, Some(e.index))
  {
    match e
    case SwipeOpen(i) => (Confirmation(true, Some(i)), None)
    case Confirm => (Confirmation(false, None), c.selected)
    case Close => (c.(modalVisible := false), None)
  }

  /** A run of events: the final dialog state and the `deleteTask` calls issued, in order. */
  function Run(c: Confirmation, events: seq<Event>): (Confirmation, seq<nat>)
  {
    if events == [] then (c, [])
    else
      var (mid, deletes) := Run(c, events[..|events| - 1]);
      var (next, call) := Step(mid, events[|events| - 1]);
      (next, deletes + (if call.Some? then [call.value] else []))
  }

  /** Pressing confirm while the dialog shows always deletes, and deletes the selected row. */
  lemma ConfirmWhileShownDeletes(c: Confirmation)
    requires Consistent(c) && c.modalVisible
    ensures Step(c, Confirm).1 == Some(c.selected.value)
  {
  }

  /** Every row deleted, and the row still selected, is one that was swiped open. */
  lemma {:induction false} DeletedRowsWereSwiped(events: seq<Event>)
    ensures forall d <- Run(Initial, events).1 :: SwipeOpen(d) in events
    ensures Run(Initial, events).0.selected.Some? ==> SwipeOpen(Run(Initial, events).0.selected.value) in events
  {
    if events != [] {
      var prefix := events[..|events| - 1];
      DeletedRowsWereSwiped(prefix);
      assert forall e <- prefix :: e in events;
    }
  }

  /** The number of swipe events in a run. */
  function Swipes(events: seq<Event>): nat
  {
    if events == [] then 0
    else Swipes(events[..|events| - 1]) + (if events[|events| - 1].SwipeOpen? then 1 else 0)
  }

  /**
   * One swipe leads to at most one deletion: the deletions so far, plus the
   * one still pending, never outnumber the swipes.
   */
  lemma {:induction false} DeletesAtMostSwipes(events: seq<Event>)
    ensures |Run(Initial, events).1| + (if Run(Initial, events).0.selected.Some? then 1 else 0) <= Swipes(events)
  {
    if events != [] {
      DeletesAtMostSwipes(events[..|events| - 1]);
    }
  }

  /** All the events are closes (cancel or back). */
  predicate AllClose(events: seq<Event>)
  {
    forall k :: 0 <= k < |events| ==> events[k] == Close
  }

  /**
   * Confirming deletes the row swiped most recently, however many times the
   * dialog was closed in between and whatever was swiped before it.
   */
  lemma {:induction false} ConfirmDeletesLatestSwipe(c: Confirmation, before: seq<Event>, index: nat, closes: seq<Event>)
    requires AllClose(closes)
    ensures Run(c, before + [SwipeOpen(index)] + closes + [Confirm]).1 == Run(c, before).1 + [index]
    ensures Run(c, before + [SwipeOpen(index)] + closes + [Confirm]).0 == Initial
  {
    AfterSwipeAndCloses(c, before, index, closes);
    var upToCloses := before + [SwipeOpen(index)] + closes;
    assert (upToCloses + [Confirm])[..|upToCloses|] == upToCloses;
  }

  /** After a swipe and any number of closes, the swiped row is still the one selected and nothing was deleted. */
  lemma {:induction false} AfterSwipeAndCloses(c: Confirmation, before: seq<Event>, index: nat, closes: seq<Event>)
    requires AllClose(closes)
    ensures Run(c, before + [SwipeOpen(index)] + closes).0.selected == Some(index)
    ensures Run(c, before + [SwipeOpen(index)] + closes).1 == Run(c, before).1
  {
    var events := before + [SwipeOpen(index)] + closes;
    if closes == [] {
      assert events[..|events| - 1] == before;
    } else {
      var shorter := closes[..|closes| - 1];
      AfterSwipeAndCloses(c, before, index, shorter);
      assert events[..|events| - 1] == before + [SwipeOpen(index)] + shorter;
      assert events[|events| - 1] == Close;
    }
  }

  /** Two swipes before a confirmation delete the second row, never the first. */
  lemma LaterSwipeWins(first: nat, second: nat)
    ensures Run(Initial, [SwipeOpen(first), SwipeOpen(second), Confirm]).1 == [second]
  {
    ConfirmDeletesLatestSwipe(Initial, [SwipeOpen(first)], second, []);
    assert [SwipeOpen(first)] + [SwipeOpen(second)] + [] + [Confirm] == [SwipeOpen(first), SwipeOpen(second), Confirm];
    assert Run(Initial, [SwipeOpen(first)]).1 == [] by {
      assert [SwipeOpen(first)][..0] == [];
    }
  }

  /** The decimal digit character for `d`. */
  function DigitChar(d: nat): (c: char)
    requires d < 10
  {
    ('0' as int + d) as char
  }

  /** Every character of `s` is a decimal digit. */
  predicate IsDigits(s: string)
  {
    forall k :: 0 <= k < |s| ==> '0' <= s[k] <= '9'
  }

  /**
   * `n.toString()` for a row index: its decimal digits, most significant
   * first, with no leading zero (zero itself is "0").
   */
  function DecimalString(n: nat): (s: string)
    ensures |s| >= 1 && IsDigits(s)
    ensures n == 0 <==> s == "0"
    ensures |s| > 1 ==> s[0] != '0'
  {
    if n < 10 then [DigitChar(n)]
    else DecimalString(n / 10) + [DigitChar(n % 10)]
  }

  /** The number a string of decimal digits denotes. */
  function DecimalValue(s: string): nat
    requires IsDigits(s)
  {
    if s == [] then 0
    else DecimalValue(s[..|s| - 1]) * 10 + (s[|s| - 1] as int - '0' as int)
  }

  /** Reading an index's decimal string gives the index back. */
  lemma {:induction false} DecimalRoundTrip(n: nat)
    ensures DecimalValue(DecimalString(n)) == n
  {
    var s := DecimalString(n);
    if n >= 10 {
      DecimalRoundTrip(n / 10);
      assert s[..|s| - 1] == DecimalString(n / 10);
    }
  }

  /** `keyExtractor`: the task's identifier when it has one, otherwise its index as a string. */
  function KeyOf(item: Task, index: nat): (key: string)
    ensures item.id.Some? ==> key == item.id.value
    ensures item.id.None? ==> IsDigits(key) && DecimalValue(key) == index
    ensures item.id.None? ==> (|key| > 1 ==> key[0] != '0') && (index == 0 <==> key == "0")
  {
    DecimalRoundTrip(index);
    match item.id
    case Some(id) => id
    case None => DecimalString(index)
  }

  /** Rows without an identifier get keys that differ from each other. */
  lemma KeysDistinctWithoutIds(tasks: seq<Task>, i: nat, j: nat)
    requires i < |tasks| && j < |tasks| && i != j
    requires tasks[i].id.None? && tasks[j].id.None?
    ensures KeyOf(tasks[i], i) != KeyOf(tasks[j], j)
  {
    var ki, kj := KeyOf(tasks[i], i), KeyOf(tasks[j], j);
    assert DecimalValue(ki) != DecimalValue(kj);
  }

  /** The screen's two state cells, and the `deleteTask` calls made so far. */
  class TaskListScreen {
    var modalVisible: bool
    var selectedTaskIndex: Option<nat>
    ghost var deleteCalls: seq<nat>

    function State(): Confirmation
      reads this
    {
      Confirmation(modalVisible, selectedTaskIndex)
    }

    ghost predicate Valid()
      reads this
    {
      Consistent(State())
    }

    /** The dialog starts hidden, with no row selected and nothing deleted. */
    constructor ()
      ensures Valid() && State() == Initial && deleteCalls == []
    {
      modalVisible := false;
      selectedTaskIndex := None;
      deleteCalls := [];
    }

    /** `onSwipeableRightOpen` of row `index`: select it (replacing any earlier choice) and show the dialog. */
    method OnSwipeableRightOpen(index: nat)
      requires Valid()
      modifies this
      ensures Valid() && State() == Step(old(State()), SwipeOpen(index)).0
      ensures selectedTaskIndex == Some(index) && modalVisible
      ensures deleteCalls == old(deleteCalls)
    {
      selectedTaskIndex := Some(index);
      modalVisible := true;
    }

    /**
     * `handleDeleteConfirm`: when a row is selected, call the root
     * component's `deleteTask` with it, exactly once; then hide the dialog
     * and clear the selection.
     */
    method HandleDeleteConfirm(app: App.AppState)
      requires Valid()
      modifies this, app
      ensures Valid() && State() == Initial
      ensures Step(old(State()), Confirm) == (State(), old(selectedTaskIndex))
      ensures deleteCalls == old(deleteCalls) + (match old(selectedTaskIndex) case Some(i) => [i] case None => [])
      ensures app.tasks == (match old(selectedTaskIndex) case Some(i) => App.WithoutIndex(old(app.tasks), i) case None => old(app.tasks))
      ensures app.user == old(app.user)
    {
      if selectedTaskIndex.Some? {
        app.DeleteTask(selectedTaskIndex.value);
        deleteCalls := deleteCalls + [selectedTaskIndex.value];
      }
      modalVisible := false;
      selectedTaskIndex := None;
    }

    /** Cancel and the back gesture: hide the dialog, delete nothing, keep the selection. */
    method CloseModal()
      requires Valid()
      modifies this
      ensures Valid() && State() == Step(old(State()), Close).0
      ensures !modalVisible && selectedTaskIndex == old(selectedTaskIndex)
      ensures deleteCalls == old(deleteCalls)
    {
      modalVisible := false;
    }
  }
}
