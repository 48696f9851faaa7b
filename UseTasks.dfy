/*
 * The task store and its undo log (src/hooks/UseTasks.ts).
 *
 * The hook keeps three state cells: the task list `tasks`, the undo log
 * `history` and the cursor `historyIndex`, which points at the most recent
 * action that has not been undone (-1 when there is none).  Here they are
 * the three fields of the class TaskStore, and every operation is one
 * sequential step that sees the latest state.
 *
 * The pure list transforms the operations apply (`find`, `filter` and
 * `map` over the task list) are functions, and each operation is also
 * given as a function from one StoreState to the next, so that sequences
 * of operations (an operation followed by undo, say) can be reasoned
 * about in lemmas.
 */
module UseTasks {
  import opened TaskTypes
  import opened JsText

  // ---------------------------------------------------------------------
  // Searching the task list

  predicate HasId(tasks: seq<Task>, id: int) {
    exists i :: 0 <= i < |tasks| && tasks[i].id == id
  }

  /** No two tasks share an id.  Ids come from the clock, so the source does not enforce this. */
  predicate UniqueIds(tasks: seq<Task>) {
    forall i, j :: 0 <= i < j < |tasks| ==> tasks[i].id != tasks[j].id
  }

  /** The position of the first task with the given id, or |tasks| when there is none. */
  function FirstIndex(tasks: seq<Task>, id: int): (k: nat)
    ensures k <= |tasks|
    ensures k < |tasks| ==> tasks[k].id == id
    ensures forall j :: 0 <= j < k ==> tasks[j].id != id
  {
    if tasks == [] then 0
    else if tasks[0].id == id then 0
    else 1 + FirstIndex(tasks[1..], id)
  }

  /** `tasks.find(task => task.id === id)`: the first task with that id, if any. */
  function Find(tasks: seq<Task>, id: int): (r: Option<Task>)
    ensures r.Some? <==> HasId(tasks, id)
    ensures r.Some? ==> r.value in tasks && r.value.id == id
  {
    var k := FirstIndex(tasks, id);
    if k < |tasks| then Some(tasks[k]) else None
  }

  /** With unique ids, the task `find` returns is the only one with that id. */
  lemma FindUnique(tasks: seq<Task>, id: int)
    requires UniqueIds(tasks) && HasId(tasks, id)
    ensures forall i :: 0 <= i < |tasks| && tasks[i].id == id ==> tasks[i] == Find(tasks, id).value
  {
  }

  // ---------------------------------------------------------------------
  // Removing the tasks with an id

  /** `tasks.filter(task => task.id !== id)`. */
  function WithoutId(tasks: seq<Task>, id: int): (r: seq<Task>)
    ensures |r| <= |tasks|
    ensures forall t :: t in r <==> t in tasks && t.id != id
    ensures !HasId(tasks, id) ==> r == tasks
  {
    if tasks == [] then []
    else if tasks[0].id == id then WithoutId(tasks[1..], id)
    else [tasks[0]] + WithoutId(tasks[1..], id)
  }

  /** The filter distributes over concatenation, so it keeps the order of what it keeps. */
  lemma {:induction false} WithoutIdAppend(a: seq<Task>, b: seq<Task>, id: int)
    ensures WithoutId(a + b, id) == WithoutId(a, id) + WithoutId(b, id)
  {
    if a == [] {
      assert a + b == b;
    } else {
      assert (a + b)[0] == a[0] && (a + b)[1..] == a[1..] + b;
      WithoutIdAppend(a[1..], b, id);
    }
  }

  /** With unique ids, removing a present id takes away exactly the task `find` returns. */
  lemma {:induction false} WithoutIdRemovesOne(tasks: seq<Task>, id: int)
    requires UniqueIds(tasks) && HasId(tasks, id)
    ensures multiset(WithoutId(tasks, id)) + multiset{Find(tasks, id).value} == multiset(tasks)
  {
    assert tasks == [tasks[0]] + tasks[1..];
    if tasks[0].id == id {
      assert !HasId(tasks[1..], id) by {
        forall i | 0 <= i < |tasks[1..]| ensures tasks[1..][i].id != id {
          assert tasks[1..][i] == tasks[i + 1];
        }
      }
    } else {
      assert HasId(tasks[1..], id) by {
        var i :| 0 <= i < |tasks| && tasks[i].id == id;
        assert tasks[1..][i - 1] == tasks[i];
      }
      assert Find(tasks, id) == Find(tasks[1..], id);
      WithoutIdRemovesOne(tasks[1..], id);
    }
  }

  /** Appending a task whose id is not yet in the list keeps the ids distinct. */
  lemma AppendFreshKeepsUniqueIds(tasks: seq<Task>, task: Task)
    ensures UniqueIds(tasks) && !HasId(tasks, task.id) ==> UniqueIds(tasks + [task])
  {
    if UniqueIds(tasks) && !HasId(tasks, task.id) {
      var r := tasks + [task];
      forall i, j | 0 <= i < j < |r| ensures r[i].id != r[j].id {
        if j == |tasks| {
          assert r[i] == tasks[i];
        } else {
          assert r[i] == tasks[i] && r[j] == tasks[j];
        }
      }
    }
  }

  /** Removing tasks keeps the remaining ids distinct. */
  lemma {:induction false} WithoutIdKeepsUniqueIds(tasks: seq<Task>, id: int)
    ensures UniqueIds(tasks) ==> UniqueIds(WithoutId(tasks, id))
  {
    if tasks != [] && UniqueIds(tasks) {
      WithoutIdKeepsUniqueIds(tasks[1..], id);
      var rest := WithoutId(tasks[1..], id);
      forall t | t in rest ensures t.id != tasks[0].id {
        var i :| 0 <= i < |tasks[1..]| && tasks[1..][i] == t;
        assert tasks[i + 1] == t;
      }
    }
  }

  // ---------------------------------------------------------------------
  // Merging fields into the tasks with an id

  /**
   * A `Partial<Task>`: each field is either not given (None) or given
   * (Some).  An optional field may be given as absent, Some(None), which
   * the spread `{ ...task, ...updates }` copies over the task's value.
   */
  datatype TaskUpdate = TaskUpdate(
    id: Option<int>,
    text: Option<string>,
    completed: Option<bool>,
    priority: Option<Option<Priority>>,
    complexity: Option<Option<Complexity>>,
    taskDate: Option<Option<string>>)

  function TextUpdate(text: string): TaskUpdate {
    TaskUpdate(None, Some(text), None, None, None, None)
  }

  function CompletedUpdate(completed: bool): TaskUpdate {
    TaskUpdate(None, None, Some(completed), None, None, None)
  }

  function PriorityUpdate(priority: Option<Priority>): TaskUpdate {
    TaskUpdate(None, None, None, Some(priority), None, None)
  }

  function ComplexityUpdate(complexity: Option<Complexity>): TaskUpdate {
    TaskUpdate(None, None, None, None, Some(complexity), None)
  }

  function TaskDateUpdate(taskDate: Option<string>): TaskUpdate {
    TaskUpdate(None, None, None, None, None, Some(taskDate))
  }

  /** `{ ...task, ...updates }`: every given field overrides the task's. */
  function Merge(task: Task, u: TaskUpdate): (r: Task)
    ensures u == TaskUpdate(None, None, None, None, None, None) ==> r == task
    ensures u.id.Some? ==> r.id == u.id.value
    ensures u.text.Some? ==> r.text == u.text.value
    ensures u.completed.Some? ==> r.completed == u.completed.value
    ensures u.priority.Some? ==> r.priority == u.priority.value
    ensures u.complexity.Some? ==> r.complexity == u.complexity.value
    ensures u.taskDate.Some? ==> r.taskDate == u.taskDate.value
    ensures u.id == None ==> r.id == task.id
    ensures u.text == None ==> r.text == task.text
    ensures u.completed == None ==> r.completed == task.completed
    ensures u.priority == None ==> r.priority == task.priority
    ensures u.complexity == None ==> r.complexity == task.complexity
    ensures u.taskDate == None ==> r.taskDate == task.taskDate
  {
    Task(
      u.id.GetOr(task.id),
      u.text.GetOr(task.text),
      u.completed.GetOr(task.completed),
      u.priority.GetOr(task.priority),
      u.complexity.GetOr(task.complexity),
      u.taskDate.GetOr(task.taskDate))
  }

  /** Spreading the same updates a second time changes nothing more. */
  lemma MergeIdempotent(task: Task, u: TaskUpdate)
    ensures Merge(Merge(task, u), u) == Merge(task, u)
  {
  }

  /**
   * `tasks.map(task => task.id === id ? { ...task, ...updates } : task)`:
   * position by position, a task with the id is merged and every other
   * task is kept as it is.
   */
  function Updated(tasks: seq<Task>, id: int, u: TaskUpdate): (r: seq<Task>)
    ensures |r| == |tasks|
    ensures forall i :: 0 <= i < |tasks| ==>
      r[i] == if tasks[i].id == id then Merge(tasks[i], u) else tasks[i]
  {
    if tasks == [] then []
    else [if tasks[0].id == id then Merge(tasks[0], u) else tasks[0]] + Updated(tasks[1..], id, u)
  }

  /** Setting back a field the matching tasks all still hold from before gives the list back. */
  lemma UpdatedRestores(tasks: seq<Task>, id: int, u: TaskUpdate, undo: TaskUpdate)
    requires forall i :: 0 <= i < |tasks| && tasks[i].id == id ==> Merge(Merge(tasks[i], u), undo) == tasks[i]
    requires u.id == None
    ensures Updated(Updated(tasks, id, u), id, undo) == tasks
  {
  }

  /** An update that does not touch `id` keeps every id, so distinct ids stay distinct. */
  lemma UpdatedKeepsIds(tasks: seq<Task>, id: int, u: TaskUpdate)
    requires u.id == None
    ensures forall i :: 0 <= i < |tasks| ==> Updated(tasks, id, u)[i].id == tasks[i].id
    ensures UniqueIds(tasks) ==> UniqueIds(Updated(tasks, id, u))
  {
  }

  // ---------------------------------------------------------------------
  // The inverse of an action

  /**
   * What undo does to the task list for the action at the cursor: a
   * creation is removed by id, a deleted snapshot is appended at the end,
   * and a field change sets the old value back on every task with its id.
   */
  function Undone(tasks: seq<Task>, action: HistoryAction): (r: seq<Task>)
    ensures action.Create? ==> forall t :: t in r <==> t in tasks && t.id != action.task.id
    ensures action.Delete? ==> |r| == |tasks| + 1 && r[..|tasks|] == tasks && r[|tasks|] == action.task
    ensures action.IsFieldChange() ==>
      |r| == |tasks| && forall i :: 0 <= i < |tasks| ==> r[i].id == tasks[i].id
  {
    match action
    case Create(t) => WithoutId(tasks, t.id)
    case Delete(t) => tasks + [t]
    case Edit(id, oldText, _) => Updated(tasks, id, TextUpdate(oldText))
    case Toggle(id, oldCompleted, _) => Updated(tasks, id, CompletedUpdate(oldCompleted))
    case ChangePriority(id, oldPriority, _) => Updated(tasks, id, PriorityUpdate(oldPriority))
    case ChangeComplexity(id, oldComplexity, _) => Updated(tasks, id, ComplexityUpdate(oldComplexity))
    case ChangeTaskDate(id, oldTaskDate, _) => Updated(tasks, id, TaskDateUpdate(oldTaskDate))
  }

  /**
   * Undoing a field change restores that one field to its old value on the
   * tasks with the action's id; every other field and every other task is
   * unchanged, and nothing changes when no task has the id.
   */
  lemma UndoFieldChange(tasks: seq<Task>, action: HistoryAction)
    requires action.IsFieldChange()
    ensures var r := Undone(tasks, action);
      && |r| == |tasks|
      && (forall i :: 0 <= i < |tasks| && tasks[i].id != action.taskId ==> r[i] == tasks[i])
      && (forall i :: 0 <= i < |tasks| && tasks[i].id == action.taskId ==>
            r[i] == match action
                    case Edit(_, oldText, _) => tasks[i].(text := oldText)
                    case Toggle(_, oldCompleted, _) => tasks[i].(completed := oldCompleted)
                    case ChangePriority(_, oldPriority, _) => tasks[i].(priority := oldPriority)
                    case ChangeComplexity(_, oldComplexity, _) => tasks[i].(complexity := oldComplexity)
                    case ChangeTaskDate(_, oldTaskDate, _) => tasks[i].(taskDate := oldTaskDate))
      && (!HasId(tasks, action.taskId) ==> r == tasks)
  {
    var r := Undone(tasks, action);
    if !HasId(tasks, action.taskId) {
      assert forall i :: 0 <= i < |tasks| ==> r[i] == tasks[i];
    }
  }

  // ---------------------------------------------------------------------
  // The store's state and its operations as functions

  datatype StoreState = StoreState(tasks: seq<Task>, history: seq<HistoryAction>, historyIndex: int)
  {
    /** The cursor is -1 or points into the log. */
    predicate Valid() {
      -1 <= historyIndex < |history|
    }
  }

  /**
   * `pushToHistory(action)`: the log is cut back to the entries up to the
   * cursor, the action is appended and the cursor moves onto it.
   */
  function AfterPush(s: StoreState, action: HistoryAction): (r: StoreState)
    requires s.Valid()
    ensures r.Valid() && r.historyIndex == s.historyIndex + 1 == |r.history| - 1
    ensures r.history[..r.historyIndex] == s.history[..s.historyIndex + 1]
    ensures r.history[r.historyIndex] == action
    ensures r.tasks == s.tasks
  {
    StoreState(s.tasks, s.history[..s.historyIndex + 1] + [action], s.historyIndex + 1)
  }

  /**
   * `undo()`: with the cursor at -1 nothing changes; otherwise the inverse
   * of the action at the cursor is applied and the cursor moves back one.
   * The log itself is never changed.
   */
  function AfterUndo(s: StoreState): (r: StoreState)
    requires s.Valid()
    ensures r.Valid() && r.history == s.history
    ensures s.historyIndex < 0 ==> r == s
    ensures s.historyIndex >= 0 ==> r.historyIndex == s.historyIndex - 1
    ensures s.historyIndex >= 0 ==> r.tasks == Undone(s.tasks, s.history[s.historyIndex])
  {
    if s.historyIndex >= 0 then
      StoreState(Undone(s.tasks, s.history[s.historyIndex]), s.history, s.historyIndex - 1)
    else s
  }

  /** The task `createTask` builds: trimmed text, not completed, the optional fields as given. */
  function NewTask(id: int, text: string, priority: Option<Priority>,
                   complexity: Option<Complexity>, taskDate: Option<string>): (task: Task)
    ensures task.id == id && !task.completed
    ensures task.priority == priority && task.complexity == complexity && task.taskDate == taskDate
    ensures |task.text| <= |text|
    ensures task.text == [] || (!IsWhiteSpace(task.text[0]) && !IsWhiteSpace(task.text[|task.text| - 1]))
  {
    Task(id, Trim(text), false, priority, complexity, taskDate)
  }

  /** `createTask`: a CREATE entry carrying the new task is pushed and the task is appended. */
  function AfterCreate(s: StoreState, id: int, text: string, priority: Option<Priority>,
                       complexity: Option<Complexity>, taskDate: Option<string>): (r: StoreState)
    requires s.Valid()
    ensures r.Valid()
    ensures UniqueIds(s.tasks) && !HasId(s.tasks, id) ==> UniqueIds(r.tasks)
  {
    var task := NewTask(id, text, priority, complexity, taskDate);
    AppendFreshKeepsUniqueIds(s.tasks, task);
    AfterPush(s, Create(task)).(tasks := s.tasks + [task])
  }

  /** `updateTask`: fields are merged into the tasks with the id; the log is not touched. */
  function AfterUpdate(s: StoreState, id: int, u: TaskUpdate): (r: StoreState)
    requires s.Valid()
    ensures r.Valid() && r.history == s.history && r.historyIndex == s.historyIndex
    ensures |r.tasks| == |s.tasks|
    ensures forall i :: 0 <= i < |s.tasks| && s.tasks[i].id != id ==> r.tasks[i] == s.tasks[i]
    ensures forall i :: 0 <= i < |s.tasks| && s.tasks[i].id == id ==> r.tasks[i] == Merge(s.tasks[i], u)
    ensures u.id == None && UniqueIds(s.tasks) ==> UniqueIds(r.tasks)
  {
    s.(tasks := Updated(s.tasks, id, u))
  }

  /**
   * `deleteTask`: with no task of that id nothing changes; otherwise a
   * DELETE entry carrying the first such task is pushed and every task
   * with the id is removed.
   */
  function AfterDelete(s: StoreState, id: int): (r: StoreState)
    requires s.Valid()
    ensures r.Valid()
    ensures UniqueIds(s.tasks) ==> UniqueIds(r.tasks)
  {
    match Find(s.tasks, id)
    case None => s
    case Some(task) =>
      WithoutIdKeepsUniqueIds(s.tasks, id);
      AfterPush(s, Delete(task)).(tasks := WithoutId(s.tasks, id))
  }

  /**
   * `toggleTaskCompletion`: with no task of that id nothing changes;
   * otherwise a TOGGLE entry with the first such task's old and negated
   * completion is pushed, and that negated value is merged into every task
   * with the id.
   */
  function AfterToggle(s: StoreState, id: int): (r: StoreState)
    requires s.Valid()
    ensures r.Valid()
    ensures UniqueIds(s.tasks) ==> UniqueIds(r.tasks)
  {
    match Find(s.tasks, id)
    case None => s
    case Some(task) =>
      UpdatedKeepsIds(s.tasks, id, CompletedUpdate(!task.completed));
      AfterPush(s, Toggle(id, task.completed, !task.completed))
        .(tasks := Updated(s.tasks, id, CompletedUpdate(!task.completed)))
  }

  // ---------------------------------------------------------------------
  // What the operations promise together

  /** Creating a task with a fresh id and undoing it leaves the list as it was. */
  lemma CreateThenUndo(s: StoreState, id: int, text: string, priority: Option<Priority>,
                       complexity: Option<Complexity>, taskDate: Option<string>)
    requires s.Valid() && !HasId(s.tasks, id)
    ensures var r := AfterUndo(AfterCreate(s, id, text, priority, complexity, taskDate));
      && r.tasks == s.tasks
      && r.historyIndex == s.historyIndex
      && r.history[..r.historyIndex + 1] == s.history[..s.historyIndex + 1]
  {
    var task := NewTask(id, text, priority, complexity, taskDate);
    WithoutIdAppend(s.tasks, [task], id);
  }

  /**
   * Deleting a present task and undoing it brings the same task back, at
   * the end: the list holds the same tasks, as many as before.
   */
  lemma DeleteThenUndo(s: StoreState, id: int)
    requires s.Valid() && UniqueIds(s.tasks) && HasId(s.tasks, id)
    ensures var r := AfterUndo(AfterDelete(s, id));
      && multiset(r.tasks) == multiset(s.tasks)
      && |r.tasks| == |s.tasks|
      && r.tasks[|r.tasks| - 1] == Find(s.tasks, id).value
      && r.historyIndex == s.historyIndex
  {
    WithoutIdRemovesOne(s.tasks, id);
    var r := AfterUndo(AfterDelete(s, id));
    assert |r.tasks| == |multiset(r.tasks)|;
  }

  /** Toggling a present task and undoing it restores the list exactly. */
  lemma ToggleThenUndo(s: StoreState, id: int)
    requires s.Valid() && UniqueIds(s.tasks) && HasId(s.tasks, id)
    ensures var r := AfterUndo(AfterToggle(s, id));
      && r.tasks == s.tasks
      && r.historyIndex == s.historyIndex
  {
    var task := Find(s.tasks, id).value;
    var toggled := AfterToggle(s, id);
    assert toggled.history[toggled.historyIndex] == Toggle(id, task.completed, !task.completed);
    assert toggled.tasks == Updated(s.tasks, id, CompletedUpdate(!task.completed));
    FindUnique(s.tasks, id);
    forall i | 0 <= i < |s.tasks| && s.tasks[i].id == id
      ensures Merge(Merge(s.tasks[i], CompletedUpdate(!task.completed)), CompletedUpdate(task.completed)) == s.tasks[i]
    {
      assert s.tasks[i] == task;
    }
    UpdatedRestores(s.tasks, id, CompletedUpdate(!task.completed), CompletedUpdate(task.completed));
  }

  /** Toggling flips the completion of the task and of nothing else. */
  lemma ToggleFlipsOnlyCompletion(s: StoreState, id: int)
    requires s.Valid() && UniqueIds(s.tasks) && HasId(s.tasks, id)
    ensures var r := AfterToggle(s, id);
      && |r.tasks| == |s.tasks|
      && forall i :: 0 <= i < |s.tasks| ==>
           r.tasks[i] == if s.tasks[i].id == id then s.tasks[i].(completed := !s.tasks[i].completed)
                         else s.tasks[i]
  {
    FindUnique(s.tasks, id);
  }

  /** Pushes a list of actions one after the other. */
  function AfterPushes(s: StoreState, actions: seq<HistoryAction>): (r: StoreState)
    requires s.Valid()
    ensures r.Valid()
    decreases |actions|
  {
    if actions == [] then s else AfterPushes(AfterPush(s, actions[0]), actions[1..])
  }

  /** Pushing actions cuts the log back to the cursor once, then appends them all in order. */
  lemma {:induction false} PushesAppend(s: StoreState, actions: seq<HistoryAction>)
    requires s.Valid()
    ensures var r := AfterPushes(s, actions);
      && r.history == (if actions == [] then s.history else s.history[..s.historyIndex + 1] + actions)
      && r.historyIndex == s.historyIndex + |actions|
      && r.tasks == s.tasks
    decreases |actions|
  {
    if actions != [] {
      var t := AfterPush(s, actions[0]);
      PushesAppend(t, actions[1..]);
      assert AfterPushes(s, actions) == AfterPushes(t, actions[1..]);
      assert t.history[..t.historyIndex + 1] == t.history == s.history[..s.historyIndex + 1] + [actions[0]];
      assert [actions[0]] + actions[1..] == actions;
      assert (s.history[..s.historyIndex + 1] + [actions[0]]) + actions[1..]
          == s.history[..s.historyIndex + 1] + actions;
    }
  }

  /**
   * Branch truncation: after pushing N actions onto an empty log, one undo
   * followed by a new action leaves N entries, the undone one replaced.
   */
  lemma UndoThenPushTruncates(tasks: seq<Task>, actions: seq<HistoryAction>, action: HistoryAction)
    requires |actions| > 0
    ensures var r := AfterPush(AfterUndo(AfterPushes(StoreState(tasks, [], -1), actions)), action);
      && |r.history| == |actions|
      && r.history == actions[..|actions| - 1] + [action]
      && r.historyIndex == |actions| - 1
  {
    PushesAppend(StoreState(tasks, [], -1), actions);
  }

  /** Creating two tasks from nothing: both are listed and both creations are logged. */
  lemma ScenarioCreateTwo(a: int, b: int, textA: string, textB: string)
    requires Trim(textA) == textA && Trim(textB) == textB
    ensures var taskA, taskB := Task(a, textA, false, None, None, None), Task(b, textB, false, None, None, None);
      AfterCreate(AfterCreate(StoreState([], [], -1), a, textA, None, None, None), b, textB, None, None, None)
        == StoreState([taskA, taskB], [Create(taskA), Create(taskB)], 1)
  {
    var taskA := Task(a, textA, false, None, None, None);
    assert AfterCreate(StoreState([], [], -1), a, textA, None, None, None) == StoreState([taskA], [Create(taskA)], 0);
  }

  /** Toggling A then deleting B, from the list [A, B]. */
  lemma ScenarioToggleDelete(taskA: Task, taskB: Task, h: seq<HistoryAction>)
    requires taskA.id != taskB.id && |h| == 2
    ensures AfterDelete(AfterToggle(StoreState([taskA, taskB], h, 1), taskA.id), taskB.id)
      == StoreState([taskA.(completed := !taskA.completed)],
                    h + [Toggle(taskA.id, taskA.completed, !taskA.completed), Delete(taskB)], 3)
  {
    var a, b := taskA.id, taskB.id;
    var s2 := StoreState([taskA, taskB], h, 1);
    assert FirstIndex(s2.tasks, a) == 0;
    var s3 := AfterToggle(s2, a);
    var toggled := taskA.(completed := !taskA.completed);
    assert s3.tasks == [toggled, taskB];
    assert s3.history == h + [Toggle(a, taskA.completed, !taskA.completed)];
    assert s3.tasks[1..] == [taskB];
    assert FirstIndex(s3.tasks, b) == 1;
    assert WithoutId(s3.tasks, b) == [toggled] + WithoutId([taskB], b);
  }

  /**
   * Create A, create B, toggle A, delete B, then undo three times: only A
   * is left, not completed, and the cursor is back on A's creation at
   * index 0: three undos revert three of the four logged actions.
   */
  lemma ThreeUndosScenario(a: int, b: int, textA: string, textB: string)
    requires a != b && Trim(textA) == textA && Trim(textB) == textB
    ensures var s0 := StoreState([], [], -1);
      var s2 := AfterCreate(AfterCreate(s0, a, textA, None, None, None), b, textB, None, None, None);
      var r := AfterUndo(AfterUndo(AfterUndo(AfterDelete(AfterToggle(s2, a), b))));
      && r.tasks == [Task(a, textA, false, None, None, None)]
      && r.historyIndex == 0
      && |r.history| == 4
  {
    var taskA, taskB := Task(a, textA, false, None, None, None), Task(b, textB, false, None, None, None);
    var s2 := AfterCreate(AfterCreate(StoreState([], [], -1), a, textA, None, None, None), b, textB, None, None, None);
    ScenarioCreateTwo(a, b, textA, textB);
    var h := [Create(taskA), Create(taskB)];
    ScenarioToggleDelete(taskA, taskB, h);
    var s4 := AfterDelete(AfterToggle(s2, a), b);
    assert s4 == StoreState([taskA.(completed := true)], h + [Toggle(a, false, true), Delete(taskB)], 3);
    UndoDeleteToggleCreate(taskA, taskB, h);
  }

  /** Undoing the delete, the toggle and B's creation, in that order. */
  lemma UndoDeleteToggleCreate(taskA: Task, taskB: Task, h: seq<HistoryAction>)
    requires taskA.id != taskB.id && |h| == 2 && h[1] == Create(taskB)
    ensures var h4 := h + [Toggle(taskA.id, taskA.completed, !taskA.completed), Delete(taskB)];
      AfterUndo(AfterUndo(AfterUndo(StoreState([taskA.(completed := !taskA.completed)], h4, 3))))
        == StoreState([taskA], h4, 0)
  {
    var h4 := h + [Toggle(taskA.id, taskA.completed, !taskA.completed), Delete(taskB)];
    var toggled := taskA.(completed := !taskA.completed);
    var u1 := AfterUndo(StoreState([toggled], h4, 3));
    assert u1 == StoreState([toggled, taskB], h4, 2);
    var u2 := AfterUndo(u1);
    assert u2 == StoreState([taskA, taskB], h4, 1);
    assert [taskA, taskB][1..] == [taskB];
    assert WithoutId([taskA, taskB], taskB.id) == [taskA];
  }

  // ---------------------------------------------------------------------
  // The hook's state

  class TaskStore {
    var tasks: seq<Task>
    var history: seq<HistoryAction>
    var historyIndex: int

    ghost predicate Valid()
      reads this
    {
      State().Valid()
    }

    function State(): StoreState
      reads this
    {
      StoreState(tasks, history, historyIndex)
    }

    /** The hook starts from the stored tasks, an empty log and the cursor at -1. */
    constructor (stored: seq<Task>)
      ensures Valid()
      ensures tasks == stored && history == [] && historyIndex == -1
    {
      tasks := stored;
      history := [];
      historyIndex := -1;
    }

    method PushToHistory(action: HistoryAction)
      requires Valid()
      modifies this
      ensures Valid() && State() == AfterPush(old(State()), action)
      ensures history == old(history[..historyIndex + 1]) + [action]
      ensures historyIndex == old(historyIndex) + 1 == |history| - 1
      ensures tasks == old(tasks)
    {
      var newHistory := history[..historyIndex + 1];
      newHistory := newHistory + [action];
      history := newHistory;
      historyIndex := historyIndex + 1;
    }

    method Undo()
      requires Valid()
      modifies this
      ensures Valid() && State() == AfterUndo(old(State()))
      ensures history == old(history)
      ensures old(historyIndex) < 0 ==> tasks == old(tasks) && historyIndex == old(historyIndex)
      ensures old(historyIndex) >= 0 ==>
        historyIndex == old(historyIndex) - 1 && tasks == Undone(old(tasks), old(history[historyIndex]))
    {
      if historyIndex >= 0 {
        var action := history[historyIndex];
        match action {
          case Create(task) =>
            tasks := WithoutId(tasks, task.id);
          case Delete(task) =>
            tasks := tasks + [task];
          case Edit(id, oldText, _) =>
            tasks := Updated(tasks, id, TextUpdate(oldText));
          case Toggle(id, oldCompleted, _) =>
            tasks := Updated(tasks, id, CompletedUpdate(oldCompleted));
          case ChangePriority(id, oldPriority, _) =>
            tasks := Updated(tasks, id, PriorityUpdate(oldPriority));
          case ChangeComplexity(id, oldComplexity, _) =>
            tasks := Updated(tasks, id, ComplexityUpdate(oldComplexity));
          case ChangeTaskDate(id, oldTaskDate, _) =>
            tasks := Updated(tasks, id, TaskDateUpdate(oldTaskDate));
        }
        historyIndex := historyIndex - 1;
      }
    }

    /**
     * `createTask`; the id is the clock reading the source takes.  The
     * store does not check the text: the page does, before calling it.
     */
    method CreateTask(id: int, text: string, priority: Option<Priority>,
                      complexity: Option<Complexity>, taskDate: Option<string>) returns (task: Task)
      requires Valid()
      modifies this
      ensures Valid() && State() == AfterCreate(old(State()), id, text, priority, complexity, taskDate)
      ensures task == Task(id, Trim(text), false, priority, complexity, taskDate)
      ensures history == old(history[..historyIndex + 1]) + [Create(task)]
      ensures historyIndex == old(historyIndex) + 1
      ensures tasks == old(tasks) + [task]
      ensures UniqueIds(old(tasks)) && !HasId(old(tasks), id) ==> UniqueIds(tasks)
    {
      task := NewTask(id, text, priority, complexity, taskDate);
      AppendFreshKeepsUniqueIds(tasks, task);
      PushToHistory(Create(task));
      tasks := tasks + [task];
    }

    method UpdateTask(id: int, u: TaskUpdate)
      requires Valid()
      modifies this
      ensures Valid() && State() == AfterUpdate(old(State()), id, u)
      ensures history == old(history) && historyIndex == old(historyIndex)
      ensures tasks == Updated(old(tasks), id, u)
    {
      tasks := Updated(tasks, id, u);
    }

    /** `deleteTask`: returns the removed snapshot, or None when no task has the id. */
    method DeleteTask(id: int) returns (deleted: Option<Task>)
      requires Valid()
      modifies this
      ensures Valid() && State() == AfterDelete(old(State()), id)
      ensures deleted == Find(old(tasks), id)
      ensures deleted.None? ==> tasks == old(tasks) && history == old(history) && historyIndex == old(historyIndex)
      ensures deleted.Some? ==>
        && history == old(history[..historyIndex + 1]) + [Delete(deleted.value)]
        && historyIndex == old(historyIndex) + 1
        && tasks == WithoutId(old(tasks), id)
    {
      deleted := Find(tasks, id);
      if deleted.None? {
        return;
      }
      PushToHistory(Delete(deleted.value));
      tasks := WithoutId(tasks, id);
    }

    method ToggleTaskCompletion(id: int)
      requires Valid()
      modifies this
      ensures Valid() && State() == AfterToggle(old(State()), id)
      ensures !HasId(old(tasks), id) ==>
        tasks == old(tasks) && history == old(history) && historyIndex == old(historyIndex)
      ensures HasId(old(tasks), id) ==>
        var was := Find(old(tasks), id).value.completed;
        && history == old(history[..historyIndex + 1]) + [Toggle(id, was, !was)]
        && historyIndex == old(historyIndex) + 1
        && tasks == Updated(old(tasks), id, CompletedUpdate(!was))
    {
      var found := Find(tasks, id);
      if found.None? {
        return;
      }
      var task := found.value;
      PushToHistory(Toggle(id, task.completed, !task.completed));
      UpdateTask(id, CompletedUpdate(!task.completed));
    }
  }
}
