/*
 * The "Incoming" page controller (src/pages/Incoming/Incoming.tsx): the
 * draft of a new task, the selected task, the task being edited, the
 * handlers that change them and call into the store, and the number of
 * active tasks the page shows.
 *
 * A date-picker value is represented by the ISO string the page would
 * produce from it, so `toISOString()` and `dayjs(...)` are the identity
 * here.
 */
module Incoming {
  import opened TaskTypes
  import opened JsText
  import opened UseTasks

  // ---------------------------------------------------------------------
  // Counting active tasks

  /** The positions of the tasks that are not completed. */
  function ActivePositions(tasks: seq<Task>): set<nat> {
    set i: nat | i < |tasks| && !tasks[i].completed
  }

  /** `tasks.filter(t => !t.completed).length`, counted from the front. */
  function ActiveCount(tasks: seq<Task>): (n: nat)
    ensures n <= |tasks|
  {
    if tasks == [] then 0
    else ActiveCount(tasks[..|tasks| - 1]) + (if tasks[|tasks| - 1].completed then 0 else 1)
  }

  /** The count is the number of positions holding an active task. */
  lemma {:induction false} ActiveCountIsActivePositions(tasks: seq<Task>)
    ensures ActiveCount(tasks) == |ActivePositions(tasks)|
  {
    if tasks != [] {
      var n := |tasks| - 1;
      var init := tasks[..n];
      ActiveCountIsActivePositions(init);
      var before := ActivePositions(init);
      if tasks[n].completed {
        assert ActivePositions(tasks) == before;
      } else {
        assert ActivePositions(tasks) == before + {n};
        assert n !in before;
      }
    }
  }

  /** Creating a task adds one active task: new tasks start not completed. */
  lemma CreateAddsOneActive(s: StoreState, id: int, text: string, priority: Option<Priority>,
                            complexity: Option<Complexity>, taskDate: Option<string>)
    requires s.Valid()
    ensures ActiveCount(AfterCreate(s, id, text, priority, complexity, taskDate).tasks) == ActiveCount(s.tasks) + 1
  {
    var r := AfterCreate(s, id, text, priority, complexity, taskDate).tasks;
    assert r[..|r| - 1] == s.tasks;
  }

  /** Two lists that differ only in the completion of position k differ by one active task. */
  lemma ActivePositionsFlip(a: seq<Task>, b: seq<Task>, k: nat)
    requires |a| == |b| && k < |a|
    requires forall i :: 0 <= i < |a| && i != k ==> a[i] == b[i]
    requires a[k].completed != b[k].completed
    ensures |ActivePositions(b)| == |ActivePositions(a)| + (if a[k].completed then 1 else -1)
  {
    var before, after := ActivePositions(a), ActivePositions(b);
    if a[k].completed {
      assert after == before + {k};
      assert k !in before;
    } else {
      assert before == after + {k};
      assert k !in after;
    }
  }

  /**
   * Toggling a present task moves the count by exactly one: down when the
   * task was active, up when it was completed.
   */
  lemma ToggleMovesActiveCountByOne(s: StoreState, id: int)
    requires s.Valid() && UniqueIds(s.tasks) && HasId(s.tasks, id)
    ensures var was := Find(s.tasks, id).value.completed;
      ActiveCount(AfterToggle(s, id).tasks) == ActiveCount(s.tasks) + (if was then 1 else -1)
  {
    var r := AfterToggle(s, id).tasks;
    var k := FirstIndex(s.tasks, id);
    ToggleFlipsOnlyCompletion(s, id);
    forall i | 0 <= i < |r| && i != k ensures r[i] == s.tasks[i] {
      assert s.tasks[i].id != id;
    }
    ActivePositionsFlip(s.tasks, r, k);
    ActiveCountIsActivePositions(s.tasks);
    ActiveCountIsActivePositions(r);
  }

  // ---------------------------------------------------------------------
  // The page's state

  /** The create form: whether it is open, and the draft's text, priority, complexity and date. */
  datatype Draft = Draft(
    creating: bool,
    text: string,
    priority: Option<Priority>,
    complexity: Option<Complexity>,
    taskDate: Option<string>)

  /** The edit state: which task is being edited, and its text, priority, complexity and date. */
  datatype Editing = Editing(
    taskId: Option<int>,
    text: string,
    priority: Option<Priority>,
    complexity: Option<Complexity>,
    taskDate: Option<string>)

  class IncomingPage {
    /** The store `useTasks()` returns. */
    const store: TaskStore

    var creatingTask: bool
    var newTaskText: string
    var newTaskPriority: Option<Priority>
    var newTaskComplexity: Option<Complexity>
    var newTaskDate: Option<string>
    var selectedTaskId: Option<int>
    var editingTaskId: Option<int>
    var editingText: string
    var editingPriority: Option<Priority>
    var editingComplexity: Option<Complexity>
    var editingTaskDate: Option<string>

    ghost predicate Valid()
      reads this, store
    {
      store.Valid()
    }

    function DraftState(): Draft
      reads this
    {
      Draft(creatingTask, newTaskText, newTaskPriority, newTaskComplexity, newTaskDate)
    }

    function EditingState(): Editing
      reads this
    {
      Editing(editingTaskId, editingText, editingPriority, editingComplexity, editingTaskDate)
    }

    /** The page's initial state: form closed, empty draft, nothing selected or edited. */
    constructor (store: TaskStore)
      requires store.Valid()
      ensures Valid() && this.store == store
      ensures DraftState() == Draft(false, "", None, None, None)
      ensures selectedTaskId == None
      ensures EditingState() == Editing(None, "", None, None, None)
    {
      this.store := store;
      creatingTask := false;
      newTaskText := "";
      newTaskPriority := None;
      newTaskComplexity := None;
      newTaskDate := None;
      selectedTaskId := None;
      editingTaskId := None;
      editingText := "";
      editingPriority := None;
      editingComplexity := None;
      editingTaskDate := None;
    }

    /**
     * `handleCreateTask`; the id is the clock reading the store takes.
     * A draft whose text trims to nothing is refused and nothing changes.
     * Otherwise the store creates the task from the trimmed text and the
     * draft's fields, and the draft is reset and the form closed.
     */
    method HandleCreateTask(id: int)
      requires Valid()
      modifies this, store
      ensures Valid()
      ensures Trim(old(newTaskText)) == "" ==> unchanged(this) && unchanged(store)
      ensures Trim(old(newTaskText)) != "" ==>
        && store.State() == AfterCreate(old(store.State()), id, Trim(old(newTaskText)),
                                        old(newTaskPriority), old(newTaskComplexity), old(newTaskDate))
        && store.tasks == old(store.tasks) + [Task(id, Trim(old(newTaskText)), false,
                                                   old(newTaskPriority), old(newTaskComplexity), old(newTaskDate))]
        && DraftState() == Draft(false, "", None, None, None)
        && selectedTaskId == old(selectedTaskId)
        && EditingState() == old(EditingState())
    {
      if Trim(newTaskText) == "" {
        return;
      }
      var text := Trim(newTaskText);
      TrimIdempotent(newTaskText);
      var task := store.CreateTask(id, text, newTaskPriority, newTaskComplexity, newTaskDate);
      assert task.text == text;
      newTaskText := "";
      newTaskPriority := None;
      newTaskComplexity := None;
      newTaskDate := None;
      creatingTask := false;
    }

    /**
     * `handleDoubleClick`: the task's id, text, priority, complexity and
     * date become the edit state.  The date is tested for truthiness
     * first, so an empty date string leaves the picker empty.
     */
    method HandleDoubleClick(task: Task)
      requires Valid()
      modifies this
      ensures Valid()
      ensures editingTaskId == Some(task.id) && editingText == task.text
      ensures editingPriority == task.priority && editingComplexity == task.complexity
      ensures task.taskDate == None || task.taskDate == Some("") ==> editingTaskDate == None
      ensures task.taskDate != None && task.taskDate != Some("") ==> editingTaskDate == task.taskDate
      ensures DraftState() == old(DraftState()) && selectedTaskId == old(selectedTaskId)
    {
      editingTaskId := Some(task.id);
      editingText := task.text;
      editingPriority := task.priority;
      editingComplexity := task.complexity;
      editingTaskDate := if task.taskDate == Some("") then None else task.taskDate;
    }

    /**
     * `handleSaveEditing`: an edit whose text trims to nothing is refused
     * and the task stays in edit mode; otherwise edit mode ends.  Either
     * way no task changes, since the source does not save the edit.
     */
    method HandleSaveEditing()
      requires Valid()
      modifies this
      ensures Valid()
      ensures Trim(old(editingText)) == "" ==> unchanged(this)
      ensures Trim(old(editingText)) != "" ==>
        && EditingState() == old(EditingState()).(taskId := None)
        && DraftState() == old(DraftState()) && selectedTaskId == old(selectedTaskId)
      ensures store.tasks == old(store.tasks) && store.history == old(store.history)
    {
      if Trim(editingText) == "" {
        return;
      }
      editingTaskId := None;
    }

    /** `handleDeleteTask`: the store deletes; a deleted selected task is no longer selected. */
    method HandleDeleteTask(id: int)
      requires Valid()
      modifies this, store
      ensures Valid()
      ensures store.State() == AfterDelete(old(store.State()), id)
      ensures selectedTaskId == if old(selectedTaskId) == Some(id) then None else old(selectedTaskId)
      ensures DraftState() == old(DraftState()) && EditingState() == old(EditingState())
    {
      var _ := store.DeleteTask(id);
      if selectedTaskId == Some(id) {
        selectedTaskId := None;
      }
    }

    /** `activeTasksCount`: the number of tasks not completed. */
    function ActiveTasksCount(): (n: nat)
      reads this, store
      ensures n == |ActivePositions(store.tasks)|
    {
      ActiveCountIsActivePositions(store.tasks);
      ActiveCount(store.tasks)
    }
  }
}
