/**
 * The root component: the signed-in user, the in-memory task list and the
 * two callbacks (`addTask`, `deleteTask`) it hands to the screens.
 */
module App {
  import opened Tasks

  /** The identity the authentication service reports; opaque to the app. */
  datatype User = User(uid: string)

  /** The screens of the navigation stack. */
  datatype Route = Login | TaskList | TaskDetails | AddTask

  /**
   * The screens the stack navigator is given: the three task screens when a
   * user is signed in, otherwise only the login screen.
   */
  function Screens(user: Option<User>): (r: seq<Route>)
    ensures (Login in r) <==> user.None?
    ensures (TaskList in r) <==> user.Some?
    ensures (TaskDetails in r) <==> user.Some?
    ensures (AddTask in r) <==> user.Some?
  {
    match user
    case Some(_) => [TaskList, TaskDetails, AddTask]
    case None => [Login]
  }

  /** The list after `addTask`: the spread-append of the new task. */
  function Appended<T>(tasks: seq<T>, t: T): (r: seq<T>)
    ensures |r| == |tasks| + 1 && r[|tasks|] == t
    ensures forall k :: 0 <= k < |tasks| ==> r[k] == tasks[k]
  {
    tasks + [t]
  }

  /**
   * The list after `deleteTask(index)`: keep every element whose position
   * differs from `index`. `index` is a JavaScript number, so it may be
   * negative or past the end, in which case nothing is dropped.
   */
  function WithoutIndex<T>(tasks: seq<T>, index: int): (r: seq<T>)
    ensures 0 <= index < |tasks| ==> r == tasks[..index] + tasks[index + 1..]
    ensures !(0 <= index < |tasks|) ==> r == tasks
  {
    if tasks == [] then []
    else
      var last := |tasks| - 1;
      WithoutIndex(tasks[..last], index) + (if last == index then [] else [tasks[last]])
  }

  /** Deleting a position in range shortens the list by one and shifts the survivors after it down by one. */
  lemma WithoutIndexPositions<T>(tasks: seq<T>, index: int)
    requires 0 <= index < |tasks|
    ensures |WithoutIndex(tasks, index)| == |tasks| - 1
    ensures forall k :: 0 <= k < index ==> WithoutIndex(tasks, index)[k] == tasks[k]
    ensures forall k :: index <= k < |tasks| - 1 ==> WithoutIndex(tasks, index)[k] == tasks[k + 1]
  {
  }

  /** Deleting a position in range removes exactly the task held there, and nothing else. */
  lemma WithoutIndexRemovesOne<T>(tasks: seq<T>, index: int)
    requires 0 <= index < |tasks|
    ensures multiset(tasks) == multiset(WithoutIndex(tasks, index)) + multiset{tasks[index]}
  {
    MultisetWithout(tasks, index);
  }

  /** Removing one position from a sequence removes one occurrence of its element. */
  lemma MultisetWithout<T>(s: seq<T>, i: int)
    requires 0 <= i < |s|
    ensures multiset(s) == multiset(s[..i] + s[i + 1..]) + multiset{s[i]}
  {
    assert s == s[..i] + [s[i]] + s[i + 1..];
  }

  /** Adding a task and then deleting its position (the last one) gives back the list as it was. */
  lemma DeleteUndoesAdd<T>(tasks: seq<T>, t: T)
    ensures WithoutIndex(Appended(tasks, t), |tasks|) == tasks
  {
    assert Appended(tasks, t)[..|tasks|] == tasks;
  }

  /** The state cells of the root component. */
  class AppState {
    var user: Option<User>
    var tasks: seq<Task>

    /** On mount nobody is signed in and the task list is empty. */
    constructor ()
      ensures user == None && tasks == []
    {
      user := None;
      tasks := [];
    }

    /**
     * The authentication listener's callback: the reported user replaces the
     * current one. The task list is left as it is, also on sign-out.
     */
    method SetUser(currentUser: Option<User>)
      modifies this
      ensures user == currentUser && tasks == old(tasks)
    {
      user := currentUser;
    }

    /** `addTask`: append `t` to the list. */
    method AddTask(t: Task)
      modifies this
      ensures tasks == Appended(old(tasks), t) && user == old(user)
    {
      tasks := Appended(tasks, t);
    }

    /** `deleteTask`: drop the task at position `index`, if there is one. */
    method DeleteTask(index: int)
      modifies this
      ensures tasks == WithoutIndex(old(tasks), index) && user == old(user)
    {
      tasks := WithoutIndex(tasks, index);
    }
  }
}
