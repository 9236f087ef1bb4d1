/**
 * The task list screen: the trim-and-reject guard in front of adding a task,
 * the all / active / completed view, and the three counters shown above it.
 */
module TaskManager {

  import opened Wrappers
  import opened JsArray
  import opened JsString
  import opened TaskContext

  datatype FilterType = All | Active | Completed

  /** The callback `filteredTasks` passes to `filter`. */
  function FilterCallback(filter: FilterType): Task -> bool {
    (task: Task) =>
      if filter == Active then !task.completed
      else if filter == Completed then task.completed
      else true
  }

  /** The callbacks the two counters pass to `filter`. */
  predicate IsActive(task: Task) { !task.completed }

  predicate IsCompleted(task: Task) { task.completed }

  /**
   * `filteredTasks`: "all" shows the list as it is; "active" and "completed"
   * show, in list order, exactly the tasks that are not / are completed.
   */
  function FilterTasks(tasks: seq<Task>, filter: FilterType): (r: seq<Task>)
    ensures IsSubsequence(r, tasks)
    ensures filter == All ==> r == tasks
    ensures filter == Active ==> forall t: Task :: multiset(r)[t] == if t.completed then 0 else multiset(tasks)[t]
    ensures filter == Completed ==> forall t: Task :: multiset(r)[t] == if t.completed then multiset(tasks)[t] else 0
  {
    if filter == All then FilterKeepsAll(tasks, FilterCallback(filter)); Filter(tasks, FilterCallback(filter))
    else Filter(tasks, FilterCallback(filter))
  }

  datatype TaskStats = TaskStats(total: nat, active: nat, completed: nat)

  /** `taskStats`: the active and completed counters add up to the total. */
  function CountTasks(tasks: seq<Task>): (stats: TaskStats)
    ensures stats.total == |tasks|
    ensures stats.active + stats.completed == stats.total
  {
    FilterPartition(tasks, IsActive, IsCompleted);
    TaskStats(|tasks|, |Filter(tasks, IsActive)|, |Filter(tasks, IsCompleted)|)
  }

  /** The active and completed views share no task and together hold every task of the list, each once. */
  lemma ActiveCompletedPartition(tasks: seq<Task>)
    ensures multiset(FilterTasks(tasks, Active)) + multiset(FilterTasks(tasks, Completed)) == multiset(tasks)
    ensures forall t :: t in FilterTasks(tasks, Active) ==> t !in FilterTasks(tasks, Completed)
  {
    FilterPartition(tasks, FilterCallback(Active), FilterCallback(Completed));
  }

  /** The number of tasks on screen is the counter of the selected filter. */
  lemma FilteredCountMatchesStats(tasks: seq<Task>, filter: FilterType)
    ensures |FilterTasks(tasks, filter)| == match filter
      case All => CountTasks(tasks).total
      case Active => CountTasks(tasks).active
      case Completed => CountTasks(tasks).completed
  {
    match filter
    case All =>
    case Active => FilterCongruent(tasks, FilterCallback(Active), IsActive);
    case Completed => FilterCongruent(tasks, FilterCallback(Completed), IsCompleted);
  }

  /**
   * Adding "Buy milk" gives one open task; toggling it completes it (0 active,
   * 1 completed); deleting it empties the list.
   */
  lemma BuyMilkScenario(id: string, now: Timestamp)
    ensures var added := Reduce(TaskState([]), AddTask("Buy milk", id, now));
      var toggled := Reduce(added, ToggleTask(id));
      && added.tasks == [Task(id, "Buy milk", false, now)]
      && toggled.tasks == [Task(id, "Buy milk", true, now)]
      && CountTasks(toggled.tasks) == TaskStats(1, 0, 1)
      && Reduce(toggled, DeleteTask(id)).tasks == []
  {
    var added := Reduce(TaskState([]), AddTask("Buy milk", id, now));
    var toggled := Reduce(added, ToggleTask(id));
    assert toggled.tasks == [Task(id, "Buy milk", true, now)];
    var t := toggled.tasks;
    assert Filter(t, IsActive) == Filter(t[1..], IsActive);
    assert Filter(t, IsCompleted) == [t[0]] + Filter(t[1..], IsCompleted);
  }

  /**
   * The guard in front of ADD_TASK: the trimmed input, or `None` when the
   * input is empty or only white space. Accepted text is never empty and
   * has no white space at either end.
   */
  function AcceptedText(input: string): (r: Option<string>)
    ensures r.None? <==> AllWhiteSpace(input)
    ensures r.Some? ==> r.value == Trim(input) && r.value != [] && IsTrimmed(r.value)
  {
    TrimEmptyIff(input);
    var text := Trim(input);
    if text == [] then None else Some(text)
  }

  /**
   * What submitting the form does to the task list and the input field:
   * input that is empty or only white space is rejected and nothing
   * changes; otherwise ADD_TASK is dispatched with the trimmed text, which
   * appends it as a new open task, and the input is cleared.
   */
  function SubmitNewTask(tasks: seq<Task>, input: string, clockId: string, clockTime: Timestamp): (r: (seq<Task>, string))
    ensures AcceptedText(input).None? ==> r == (tasks, input)
    ensures AcceptedText(input).Some? ==> r == (tasks + [Task(clockId, AcceptedText(input).value, false, clockTime)], "")
  {
    match AcceptedText(input)
    case None => (tasks, input)
    case Some(text) => (Reduce(TaskState(tasks), AddTask(text, clockId, clockTime)).tasks, "")
  }

  /** Submitting twice in a row adds the task once: the first submit clears the input, so the second is rejected. */
  lemma SubmitTwiceAddsOnce(tasks: seq<Task>, input: string, clockId: string, clockTime: Timestamp, laterId: string, laterTime: Timestamp)
    ensures var first := SubmitNewTask(tasks, input, clockId, clockTime);
      SubmitNewTask(first.0, first.1, laterId, laterTime) == first
  {
  }

  /** The task list component's state: the provider's task list as `useTasks` hands it over, the input field and the filter. */
  class Component {
    var tasks: seq<Task>
    var newTask: string
    var filter: FilterType

    /** A fresh component: empty input; the filter is whatever was stored under "taskFilter" ("all" when nothing was). */
    constructor (tasks: seq<Task>, storedFilter: FilterType)
      ensures this.tasks == tasks && newTask == "" && filter == storedFilter
    {
      this.tasks := tasks;
      newTask := "";
      filter := storedFilter;
    }

    /** `filteredTasks`: the tasks on screen, in list order, as many as the selected filter's counter says. */
    function FilteredTasks(): (shown: seq<Task>)
      reads this
      ensures IsSubsequence(shown, tasks)
      ensures filter == All ==> shown == tasks
      ensures filter == Active ==> forall t: Task :: multiset(shown)[t] == if t.completed then 0 else multiset(tasks)[t]
      ensures filter == Completed ==> forall t: Task :: multiset(shown)[t] == if t.completed then multiset(tasks)[t] else 0
      ensures |shown| == match filter
        case All => Stats().total
        case Active => Stats().active
        case Completed => Stats().completed
    {
      FilteredCountMatchesStats(tasks, filter);
      FilterTasks(tasks, filter)
    }

    /** `taskStats`: the active and completed counters are the sizes of those two views and add up to the total. */
    function Stats(): (stats: TaskStats)
      reads this
      ensures stats.total == |tasks|
      ensures stats.active == |FilterTasks(tasks, Active)|
      ensures stats.completed == |FilterTasks(tasks, Completed)|
      ensures stats.active + stats.completed == stats.total
    {
      FilteredCountMatchesStats(tasks, Active);
      FilteredCountMatchesStats(tasks, Completed);
      CountTasks(tasks)
    }

    /** The input field's `onChange`. */
    method HandleInputChange(value: string)
      modifies this`newTask
      ensures newTask == value
    {
      newTask := value;
    }

    /** `handleAddTask`, the form's `onSubmit`: the list and the input become what `SubmitNewTask` says. */
    method HandleAddTask(clockId: string, clockTime: Timestamp)
      modifies this`tasks, this`newTask
      ensures (tasks, newTask) == SubmitNewTask(old(tasks), old(newTask), clockId, clockTime)
    {
      var next := SubmitNewTask(tasks, newTask, clockId, clockTime);
      tasks, newTask := next.0, next.1;
    }

    /** One of the three filter buttons. */
    method HandleFilterChange(selected: FilterType)
      modifies this`filter
      ensures filter == selected
    {
      filter := selected;
    }

    /** A task's check button: dispatches TOGGLE_TASK with that task's id. */
    method HandleToggle(id: string)
      modifies this`tasks
      ensures tasks == Reduce(TaskState(old(tasks)), ToggleTask(id)).tasks
      ensures |tasks| == |old(tasks)|
    {
      tasks := Reduce(TaskState(tasks), ToggleTask(id)).tasks;
    }

    /** A task's delete button: dispatches DELETE_TASK with that task's id. */
    method HandleDelete(id: string)
      modifies this`tasks
      ensures tasks == Reduce(TaskState(old(tasks)), DeleteTask(id)).tasks
      ensures IsSubsequence(tasks, old(tasks)) && Absent(tasks, id)
    {
      DeleteRemovesMatching(TaskState(tasks), id);
      tasks := Reduce(TaskState(tasks), DeleteTask(id)).tasks;
    }
  }

}
