/*
 * The task record and the undo-log entry types (src/types/TaskTypes.ts).
 *
 * The source types `priority` and `complexity` as unions of string
 * literals; here each union is an enumeration whose Label() gives back the
 * literal.  A field the source marks optional (`?`) is an Option, so that
 * "absent" is a value of its own and never an empty string.
 */
module TaskTypes {

  datatype Option<+T> = None | Some(value: T)
  {
    function GetOr(default: T): T {
      match this
      case Some(v) => v
      case None => default
    }
  }

  /** The four priority literals: "Срочно" | "Высокий" | "Средний" | "Низкий". */
  datatype Priority = Urgent | High | Medium | Low
  {
    function Label(): (s: string)
      ensures s in PriorityLabels()
    {
      match this
      case Urgent => "Срочно"
      case High => "Высокий"
      case Medium => "Средний"
      case Low => "Низкий"
    }
  }

  function PriorityLabels(): set<string> {
    {"Срочно", "Высокий", "Средний", "Низкий"}
  }

  /** The three complexity literals: "Высокая" | "Средняя" | "Низкая". */
  datatype Complexity = High | Medium | Low
  {
    function Label(): (s: string)
      ensures s in ComplexityLabels()
    {
      match this
      case High => "Высокая"
      case Medium => "Средняя"
      case Low => "Низкая"
    }
  }

  function ComplexityLabels(): set<string> {
    {"Высокая", "Средняя", "Низкая"}
  }

  /** Every priority literal is the label of exactly one priority. */
  lemma PriorityLabelsExact(s: string)
    ensures s in PriorityLabels() <==> exists p: Priority :: p.Label() == s
    ensures forall p: Priority, q: Priority :: p.Label() == q.Label() ==> p == q
  {
    if s in PriorityLabels() {
      var p: Priority :=
        if s == "Срочно" then Priority.Urgent
        else if s == "Высокий" then Priority.High
        else if s == "Средний" then Priority.Medium
        else Priority.Low;
      assert p.Label() == s;
    }
  }

  /** Every complexity literal is the label of exactly one complexity. */
  lemma ComplexityLabelsExact(s: string)
    ensures s in ComplexityLabels() <==> exists c: Complexity :: c.Label() == s
    ensures forall c: Complexity, d: Complexity :: c.Label() == d.Label() ==> c == d
  {
    if s in ComplexityLabels() {
      var c: Complexity :=
        if s == "Высокая" then Complexity.High
        else if s == "Средняя" then Complexity.Medium
        else Complexity.Low;
      assert c.Label() == s;
    }
  }

  /**
   * A task: `id`, `text` and `completed` are mandatory; `priority`,
   * `complexity` and `taskDate` may be absent.  `taskDate` is an opaque
   * date string.  The id is a JavaScript number holding a millisecond
   * timestamp, an integer.
   */
  datatype Task = Task(
    id: int,
    text: string,
    completed: bool,
    priority: Option<Priority>,
    complexity: Option<Complexity>,
    taskDate: Option<string>)

  /**
   * One entry of the undo log.  CREATE and DELETE carry a whole task;
   * every other variant carries the id of the task and the old and new
   * value of one field.  TOGGLE's values are mandatory booleans, the
   * priority, complexity and date values may be absent.
   */
  datatype HistoryAction =
    | Create(task: Task)
    | Delete(task: Task)
    | Edit(taskId: int, oldText: string, newText: string)
    | Toggle(taskId: int, oldCompleted: bool, newCompleted: bool)
    | ChangePriority(taskId: int, oldPriority: Option<Priority>, newPriority: Option<Priority>)
    | ChangeComplexity(taskId: int, oldComplexity: Option<Complexity>, newComplexity: Option<Complexity>)
    | ChangeTaskDate(taskId: int, oldTaskDate: Option<string>, newTaskDate: Option<string>)
  {
    /** The `type` discriminant the source stores in every action. */
    function TypeTag(): (tag: string)
      ensures tag in ActionTags()
    {
      match this
      case Create(_) => "CREATE"
      case Delete(_) => "DELETE"
      case Edit(_, _, _) => "EDIT"
      case Toggle(_, _, _) => "TOGGLE"
      case ChangePriority(_, _, _) => "PRIORITY"
      case ChangeComplexity(_, _, _) => "COMPLEXITY"
      case ChangeTaskDate(_, _, _) => "TASKDATE"
    }

    /** True of the five variants that record a change to one field. */
    predicate IsFieldChange() {
      !Create? && !Delete?
    }
  }

  function ActionTags(): set<string> {
    {"CREATE", "DELETE", "EDIT", "TOGGLE", "PRIORITY", "COMPLEXITY", "TASKDATE"}
  }

  /** The discriminant tells the seven variants apart: there are exactly seven. */
  lemma TypeTagIdentifiesVariant(a: HistoryAction, b: HistoryAction)
    ensures a.TypeTag() == b.TypeTag() <==>
      (a.Create? && b.Create?) || (a.Delete? && b.Delete?) || (a.Edit? && b.Edit?) ||
      (a.Toggle? && b.Toggle?) || (a.ChangePriority? && b.ChangePriority?) ||
      (a.ChangeComplexity? && b.ChangeComplexity?) || (a.ChangeTaskDate? && b.ChangeTaskDate?)
    ensures |ActionTags()| == 7
  {
  }
}
