/**
 * The task store's reducer: a closed set of four actions, each a total map
 * from the old ordered task list to a new one. Nothing is mutated; every
 * case builds a new state from the old one.
 */
module TaskContext {

  import opened JsArray

  /** Milliseconds since the epoch, what `new Date()` records. */
  type Timestamp = int

  datatype Task = Task(id: string, text: string, completed: bool, createdAt: Timestamp)

  datatype TaskState = TaskState(tasks: seq<Task>)

  /**
   * The reducer's actions. ADD_TASK's payload is the task's text; the id
   * (`Date.now().toString()`) and the creation time (`new Date()`) that the
   * reducer reads from the clock while handling it are carried beside the
   * text here, so the reducer stays a function of its arguments.
   */
  datatype TaskAction =
    | AddTask(text: string, clockId: string, clockTime: Timestamp)
    | ToggleTask(id: string)
    | DeleteTask(id: string)
    | LoadTasks(payload: seq<Task>)

  /** The callback TOGGLE_TASK passes to `map`: negate `completed` on a task whose id matches. */
  function ToggleIfMatches(id: string): Task -> Task {
    (task: Task) => if task.id == id then task.(completed := !task.completed) else task
  }

  /** The callback DELETE_TASK passes to `filter`: keep a task whose id differs. */
  function KeepsUnlessMatches(id: string): Task -> bool {
    (task: Task) => task.id != id
  }

  /**
   * `taskReducer`: ADD_TASK lengthens the list by one, TOGGLE_TASK keeps its
   * length, DELETE_TASK never lengthens it and LOAD_TASKS makes it the payload.
   */
  function Reduce(state: TaskState, action: TaskAction): (r: TaskState)
    ensures action.AddTask? ==> |r.tasks| == |state.tasks| + 1
    ensures action.ToggleTask? ==> |r.tasks| == |state.tasks|
    ensures action.DeleteTask? ==> |r.tasks| <= |state.tasks|
    ensures action.LoadTasks? ==> r.tasks == action.payload
  {
    match action
    case AddTask(text, newId, now) => state.(tasks := state.tasks + [Task(newId, text, false, now)])
    case ToggleTask(id) => state.(tasks := Map(state.tasks, ToggleIfMatches(id)))
    case DeleteTask(id) => state.(tasks := Filter(state.tasks, KeepsUnlessMatches(id)))
    case LoadTasks(payload) => state.(tasks := payload)
  }

  /** No task in `tasks` carries `id`. */
  predicate Absent(tasks: seq<Task>, id: string) {
    forall i :: 0 <= i < |tasks| ==> tasks[i].id != id
  }

  /** No two tasks share an id. The reducer does not enforce this. */
  ghost predicate UniqueIds(tasks: seq<Task>) {
    forall i, j :: 0 <= i < j < |tasks| ==> tasks[i].id != tasks[j].id
  }

  /** ADD_TASK appends one new, not completed task carrying the payload and leaves every earlier task as it was. */
  lemma AddAppends(state: TaskState, text: string, newId: string, now: Timestamp)
    ensures var r := Reduce(state, AddTask(text, newId, now)).tasks;
      && |r| == |state.tasks| + 1
      && r[..|state.tasks|] == state.tasks
      && r[|state.tasks|] == Task(newId, text, false, now)
  {
  }

  /**
   * TOGGLE_TASK keeps length, order, ids, texts and creation times, and
   * negates `completed` on exactly the tasks whose id matches (all of them,
   * when several share it).
   */
  lemma ToggleFlipsMatching(state: TaskState, id: string)
    ensures var r := Reduce(state, ToggleTask(id)).tasks;
      && |r| == |state.tasks|
      && forall i :: 0 <= i < |r| ==>
        && r[i].id == state.tasks[i].id
        && r[i].text == state.tasks[i].text
        && r[i].createdAt == state.tasks[i].createdAt
        && r[i].completed == (if state.tasks[i].id == id then !state.tasks[i].completed else state.tasks[i].completed)
  {
  }

  /** Toggling the same id twice restores the list. */
  lemma ToggleTwice(state: TaskState, id: string)
    ensures Reduce(Reduce(state, ToggleTask(id)), ToggleTask(id)) == state
  {
    var r := Reduce(Reduce(state, ToggleTask(id)), ToggleTask(id)).tasks;
    assert forall i :: 0 <= i < |r| ==> r[i] == state.tasks[i];
  }

  /** Toggling an id that no task carries changes nothing. */
  lemma ToggleAbsent(state: TaskState, id: string)
    requires Absent(state.tasks, id)
    ensures Reduce(state, ToggleTask(id)) == state
  {
    var r := Reduce(state, ToggleTask(id)).tasks;
    assert forall i :: 0 <= i < |r| ==> r[i] == state.tasks[i];
  }

  /**
   * DELETE_TASK keeps, in their order, every task whose id differs (as
   * many times as it occurs) and no task whose id matches.
   */
  lemma DeleteRemovesMatching(state: TaskState, id: string)
    ensures var r := Reduce(state, DeleteTask(id)).tasks;
      && IsSubsequence(r, state.tasks)
      && Absent(r, id)
      && forall t: Task :: t.id != id ==> multiset(r)[t] == multiset(state.tasks)[t]
  {
    var r := Reduce(state, DeleteTask(id)).tasks;
    forall i | 0 <= i < |r| ensures r[i].id != id {
      assert multiset(r)[r[i]] > 0;
    }
  }

  /** Deleting the same id twice is deleting it once. */
  lemma DeleteIdempotent(state: TaskState, id: string)
    ensures Reduce(Reduce(state, DeleteTask(id)), DeleteTask(id)) == Reduce(state, DeleteTask(id))
  {
    FilterIdempotent(state.tasks, KeepsUnlessMatches(id));
  }

  /** Deleting an id that no task carries changes nothing. */
  lemma DeleteAbsent(state: TaskState, id: string)
    requires Absent(state.tasks, id)
    ensures Reduce(state, DeleteTask(id)) == state
  {
    FilterKeepsAll(state.tasks, KeepsUnlessMatches(id));
  }

  /** LOAD_TASKS replaces the list with its payload whatever the list was. */
  lemma LoadReplaces(state: TaskState, payload: seq<Task>)
    ensures Reduce(state, LoadTasks(payload)).tasks == payload
  {
  }

  /** Adding keeps the ids unique exactly when the clock-derived id is not already in use. */
  lemma AddKeepsUniqueIdsIff(state: TaskState, text: string, newId: string, now: Timestamp)
    requires UniqueIds(state.tasks)
    ensures UniqueIds(Reduce(state, AddTask(text, newId, now)).tasks) <==> Absent(state.tasks, newId)
  {
    var s, r := state.tasks, Reduce(state, AddTask(text, newId, now)).tasks;
    assert forall i :: 0 <= i < |s| ==> r[i] == s[i];
    assert r[|s|].id == newId;
  }

  /** Toggling keeps every id where it was, so it keeps them unique. */
  lemma ToggleKeepsUniqueIds(state: TaskState, id: string)
    requires UniqueIds(state.tasks)
    ensures UniqueIds(Reduce(state, ToggleTask(id)).tasks)
  {
  }

  /** Dropping tasks from a list with unique ids leaves the ids unique. */
  lemma {:induction false} SubsequenceKeepsUniqueIds(r: seq<Task>, s: seq<Task>)
    requires IsSubsequence(r, s)
    requires UniqueIds(s)
    ensures UniqueIds(r)
    decreases |s|
  {
    if r != [] {
      assert UniqueIds(s[1..]);
      if r[0] == s[0] && IsSubsequence(r[1..], s[1..]) {
        SubsequenceKeepsUniqueIds(r[1..], s[1..]);
        SubsequenceMembers(r[1..], s[1..]);
        forall j | 0 < j < |r| ensures r[0].id != r[j].id {
          assert r[j] == r[1..][j - 1];
          assert r[j] in s[1..];
          var k :| 0 <= k < |s[1..]| && s[1..][k] == r[j];
          assert s[k + 1] == r[j];
        }
      } else {
        SubsequenceKeepsUniqueIds(r, s[1..]);
      }
    }
  }

  /** Deleting keeps the ids unique. */
  lemma DeleteKeepsUniqueIds(state: TaskState, id: string)
    requires UniqueIds(state.tasks)
    ensures UniqueIds(Reduce(state, DeleteTask(id)).tasks)
  {
    SubsequenceKeepsUniqueIds(Reduce(state, DeleteTask(id)).tasks, state.tasks);
  }

  /** Two additions within the same millisecond read the same id from the clock, so the list then holds a duplicate id. */
  lemma SameMillisecondDuplicatesId(state: TaskState, a: string, b: string, newId: string, now: Timestamp)
    ensures !UniqueIds(Reduce(Reduce(state, AddTask(a, newId, now)), AddTask(b, newId, now)).tasks)
  {
    var r := Reduce(Reduce(state, AddTask(a, newId, now)), AddTask(b, newId, now)).tasks;
    var n := |state.tasks|;
    assert r[n].id == newId && r[n + 1].id == newId;
  }

}
