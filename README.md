# Task list with undo: a Dafny model

This project models the core of a browser to-do application. Users create,
complete and delete tasks. A task may carry a priority, a complexity and a
due date. A linear undo log records each change.

The core is the `useTasks` hook. It holds three pieces of state:

- `tasks`: the task list.
- `history`: the undo log of `HistoryAction` entries.
- `historyIndex`: the cursor. It points at the newest action not yet undone, or is -1.

The hook's operations are `pushToHistory`, `undo`, `createTask`,
`updateTask`, `deleteTask` and `toggleTaskCompletion`.

On top of the store sits the "Incoming" page controller. It validates a new
task's text, clears the selection when the selected task is deleted and
counts the active tasks. Three small pure helpers complete the core:

- the Russian plural rule for "N active tasks", written twice in the source;
- the colour tags for priority and complexity;
- the JavaScript built-ins these rely on (`trim`, the truncating `%`, and number-to-text).

Files, one module each:

- `TaskTypes.dfy`: the `Task` record, the priority and complexity value sets, and the seven `HistoryAction` variants.
- `UseTasks.dfy`: the pure list transforms the hook applies (`find`, `filter`, `map` with a spread merge); each operation as a function from one `StoreState` to the next; lemmas about sequences of operations; and the class `TaskStore`, whose three fields and methods mirror the hook.
- `Incoming.dfy`: the class `IncomingPage`, which holds the page's draft, selection and edit state and uses a `TaskStore`, plus the active-task count.
- `TaskUtils.dfy`: `getPriorityColor` and `getComplexityColor`.
- `TextUtils.dfy`: `pluralizeTasks`.
- `TaskCounter.dfy`: the counter component's own copy of the rule, and the text it renders.
- `JsText.dfy`: `String.prototype.trim`, JavaScript's `%` on integers, and decimal rendering of a natural number.

Each store method states its whole new state. It does so field by field, and
as equal to the matching step function applied to the old state. The
properties that span several calls are lemmas over the step functions:

- create with a fresh id followed by undo gives the old list back;
- on a list with distinct ids, toggle followed by undo gives the old list back;
- on a list with distinct ids, delete followed by undo gives the same tasks back, with the deleted one moved to the end (src/hooks/UseTasks.ts:34 appends it);
- pushing cuts the log back to the cursor;
- distinct ids stay distinct through create with a fresh id, delete, toggle and any update that does not set `id`.

Notes on the code:

- The store's `createTask` does not reject empty text. It only trims (src/hooks/UseTasks.ts:95). The empty-text check is in the page (src/pages/Incoming/Incoming.tsx:46).
- There is no "commit edit" operation. Saving an edit only leaves edit mode (src/pages/Incoming/Incoming.tsx:79-82). So nothing in the code pushes `EDIT`, `PRIORITY`, `COMPLEXITY` or `TASKDATE`. Only the exported `pushToHistory` can add them, and `undo` consumes them.
- Example: create A, create B, toggle A, delete B, then undo three times. This leaves only A, not completed, and the cursor at 0: three undos revert three of the four logged actions (`ThreeUndosScenario`).
- Undo does not keep ids distinct in general. Undoing a DELETE entry whose task is present again duplicates its id; such an entry comes from a direct `pushToHistory` call, or from an `updateTask` that gives a task the id of a deleted one.
- Reading stored tasks does not catch malformed JSON (src/utils/TaskUtils.ts:45). Persistence is left out, so the model makes no claim about it.

## Model

| member | source | states |
|---|---|---|
| TaskTypes.PriorityLabelsExact | src/types/TaskTypes.ts:5 | a priority is exactly one of "Срочно", "Высокий", "Средний", "Низкий": each literal is the label of one and only one priority |
| TaskTypes.ComplexityLabelsExact | src/types/TaskTypes.ts:6 | a complexity is exactly one of "Высокая", "Средняя", "Низкая", each the label of one complexity |
| TaskTypes.TypeTagIdentifiesVariant | src/types/TaskTypes.ts:10-37 | the `type` tag tells the variants apart, and there are exactly seven of them |
| JsText.TrimStartSpec | src/hooks/UseTasks.ts:95 | dropping leading white space leaves a suffix that starts with a non-space, and everything dropped is white space |
| JsText.TrimEndSpec | src/hooks/UseTasks.ts:95 | dropping trailing white space leaves a prefix that ends with a non-space, and everything dropped is white space |
| JsText.TrimSpec | src/pages/Incoming/Incoming.tsx:46 | `trim` gives the infix between the leading and the trailing white space: everything before and after it is white space, and it neither starts nor ends with white space; it is empty exactly when the text is all white space |
| JsText.Trim | src/hooks/UseTasks.ts:95 | `trim` never lengthens the text, and what it leaves neither starts nor ends with white space |
| JsText.TrimOfTrimmed | src/hooks/UseTasks.ts:95 | text with no white space at either end is its own trim |
| JsText.TrimIdempotent | src/pages/Incoming/Incoming.tsx:52 | trimming text that is already trimmed (the page trims, then the store trims again) changes nothing |
| JsText.JsRem | src/utils/TextUtils.ts:2 | JavaScript's `%`: the dividend is the divisor times the quotient truncated toward zero plus the remainder; the remainder keeps the sign of the dividend and stays strictly below the divisor in magnitude; on non-negative numbers it is the mathematical remainder |
| JsText.DecimalString | src/components/Pages/taskCounter.tsx:17 | a rendered count is one or more decimal digits, with no leading zero unless the count is 0 |
| JsText.DecimalRoundTrip | src/components/Pages/taskCounter.tsx:17 | reading back the digits of a rendered count gives the count |
| UseTasks.FirstIndex | src/hooks/UseTasks.ts:118 | `find` stops at the first task with the id: that task has the id and none before it does |
| UseTasks.Find | src/hooks/UseTasks.ts:131 | `find` returns a task exactly when some task has the id, and the one it returns is in the list and has the id |
| UseTasks.FindUnique | src/hooks/UseTasks.ts:118 | with distinct ids, the found task is the only task with that id |
| UseTasks.WithoutId | src/hooks/UseTasks.ts:122 | the filter keeps exactly the tasks whose id differs, and changes nothing when no task has the id |
| UseTasks.WithoutIdAppend | src/hooks/UseTasks.ts:31 | the filter distributes over concatenation, so it keeps the order of the tasks it keeps |
| UseTasks.WithoutIdRemovesOne | src/hooks/UseTasks.ts:116-127 | with distinct ids, removing a present id takes away exactly the snapshot `deleteTask` logs |
| UseTasks.WithoutIdKeepsUniqueIds | src/hooks/UseTasks.ts:122 | removing tasks keeps distinct ids distinct |
| UseTasks.AppendFreshKeepsUniqueIds | src/hooks/UseTasks.ts:103 | appending a task whose id is not in the list keeps the ids distinct |
| UseTasks.Merge | src/hooks/UseTasks.ts:112 | `{ ...task, ...updates }`: each field the update gives replaces the task's value, each field it does not give keeps the task's value, and an empty update changes nothing |
| UseTasks.MergeIdempotent | src/hooks/UseTasks.ts:112 | spreading the same updates twice is the same as spreading them once |
| UseTasks.Updated | src/hooks/UseTasks.ts:110-114 | `updateTask`'s map keeps the length; each task with the id gets the fields merged in, and every other task stays as it was |
| UseTasks.UpdatedRestores | src/hooks/UseTasks.ts:45-53 | an update followed by an undo update that restores each task with the id gives back the original list, unchanged everywhere else |
| UseTasks.UpdatedKeepsIds | src/hooks/UseTasks.ts:110-114 | an update that does not give an id keeps every id, so distinct ids stay distinct |
| UseTasks.Undone | src/hooks/UseTasks.ts:29-81 | the undo switch on the task list: undoing CREATE keeps exactly the tasks without the created id; undoing DELETE appends the snapshot at the end and keeps the rest; undoing a field change keeps the length and every task's id |
| UseTasks.UndoFieldChange | src/hooks/UseTasks.ts:36-80 | undoing EDIT, TOGGLE, PRIORITY, COMPLEXITY or TASKDATE sets that one field back to its old value on the tasks with the id; every other field and task is unchanged; if no task has the id, nothing changes |
| UseTasks.AfterPush | src/hooks/UseTasks.ts:14-24 | pushing keeps the log up to and including the cursor, appends the action, advances the cursor by one onto the last entry, and leaves the tasks alone |
| UseTasks.AfterUndo | src/hooks/UseTasks.ts:26-84 | undo never changes the log; at cursor -1 nothing changes; otherwise the task list becomes the inverse of the action at the cursor applied to it (`Undone`) and the cursor drops by exactly one; the cursor stays within -1 and the log's length |
| UseTasks.NewTask | src/hooks/UseTasks.ts:93-100 | the new task has the given id, is not completed, carries the given priority, complexity and date, and has text no longer than given and with no white space at either end |
| UseTasks.AfterCreate | src/hooks/UseTasks.ts:86-108 | creating keeps the cursor inside the log, and a fresh id keeps the ids distinct |
| UseTasks.AfterUpdate | src/hooks/UseTasks.ts:110-114 | updating leaves the log and the cursor alone, keeps the number of tasks, merges the update into every task with the id, leaves every task without the id as it was, and keeps distinct ids distinct when the update does not set `id` |
| UseTasks.AfterDelete | src/hooks/UseTasks.ts:116-127 | deleting keeps the cursor inside the log and keeps distinct ids distinct |
| UseTasks.AfterToggle | src/hooks/UseTasks.ts:129-144 | toggling keeps the cursor inside the log and keeps distinct ids distinct |
| UseTasks.CreateThenUndo | src/hooks/UseTasks.ts:30-32 | creating a task with a fresh id and then undoing gives the old task list and the old cursor back |
| UseTasks.DeleteThenUndo | src/hooks/UseTasks.ts:33-35 | with distinct ids, deleting a present task and then undoing brings back the same tasks, as many as before, with the deleted one at the end, and the old cursor |
| UseTasks.ToggleThenUndo | src/hooks/UseTasks.ts:45-53 | with distinct ids, toggling a present task and then undoing restores the list exactly and moves the cursor back to where it was |
| UseTasks.ToggleFlipsOnlyCompletion | src/hooks/UseTasks.ts:129-144 | with distinct ids, toggling flips `completed` on the task with the id and changes nothing else |
| UseTasks.AfterPushes | src/hooks/UseTasks.ts:14-24 | a sequence of pushes keeps the cursor inside the log |
| UseTasks.PushesAppend | src/hooks/UseTasks.ts:17-18 | pushing several actions cuts the log back to the cursor once, appends them in order, and leaves the tasks alone |
| UseTasks.UndoThenPushTruncates | src/hooks/UseTasks.ts:17-21 | after N pushes onto an empty log, one undo and then a new push leave exactly N entries, with the undone entry replaced |
| UseTasks.ScenarioCreateTwo | src/hooks/UseTasks.ts:86-108 | creating two tasks with already-trimmed texts from an empty store lists both and logs both creations |
| UseTasks.ScenarioToggleDelete | src/hooks/UseTasks.ts:116-144 | toggling A and then deleting B from [A, B] leaves only A, flipped, with both actions logged |
| UseTasks.UndoDeleteToggleCreate | src/hooks/UseTasks.ts:26-84 | three undos after that revert the delete, the toggle and B's creation, leaving [A] and the cursor at 0 |
| UseTasks.ThreeUndosScenario | src/hooks/UseTasks.ts:26-144 | create A, create B, toggle A, delete B, then three undos: only A is left, not completed, with the cursor at 0 and four entries in the log |
| UseTasks.TaskStore.constructor | src/hooks/UseTasks.ts:6-8 | the store starts from the stored tasks, an empty log and cursor -1 |
| UseTasks.TaskStore.PushToHistory | src/hooks/UseTasks.ts:14-24 | the log becomes the old log up to the cursor plus the action; the cursor moves onto it; the tasks do not change |
| UseTasks.TaskStore.Undo | src/hooks/UseTasks.ts:26-84 | at cursor -1 nothing changes; otherwise the inverse of the action at the cursor is applied and the cursor drops by one; the log never changes |
| UseTasks.TaskStore.CreateTask | src/hooks/UseTasks.ts:86-108 | the returned task has the trimmed text, `completed` false and the given optional fields; CREATE with that same task is pushed; the task is appended; a fresh id keeps ids distinct |
| UseTasks.TaskStore.UpdateTask | src/hooks/UseTasks.ts:110-114 | the fields are merged into the tasks with the id, and the log and the cursor are untouched |
| UseTasks.TaskStore.DeleteTask | src/hooks/UseTasks.ts:116-127 | returns what `find` returns; when it is absent nothing changes; otherwise DELETE with that snapshot is pushed and every task with the id is removed |
| UseTasks.TaskStore.ToggleTaskCompletion | src/hooks/UseTasks.ts:129-144 | when the id is absent nothing changes; otherwise TOGGLE with the old value and its negation is pushed, and that negation is merged into the tasks with the id |
| Incoming.ActiveCount | src/pages/Incoming/Incoming.tsx:93 | the active count never exceeds the number of tasks |
| Incoming.ActiveCountIsActivePositions | src/pages/Incoming/Incoming.tsx:93 | the active count equals the number of positions that hold a task with `completed == false` |
| Incoming.CreateAddsOneActive | src/hooks/UseTasks.ts:96 | creating a task raises the active count by one, because a new task starts not completed |
| Incoming.ActivePositionsFlip | src/pages/Incoming/Incoming.tsx:93 | two lists that differ only in the completion of one position differ by exactly one active task |
| Incoming.ToggleMovesActiveCountByOne | src/hooks/UseTasks.ts:129-144 | with distinct ids, toggling a present task lowers the active count by one if it was active, and raises it by one if it was completed |
| Incoming.IncomingPage.constructor | src/pages/Incoming/Incoming.tsx:17-31 | the page starts with the form closed, an empty draft, and nothing selected or being edited |
| Incoming.IncomingPage.HandleCreateTask | src/pages/Incoming/Incoming.tsx:45-63 | a draft whose text trims to empty changes nothing at all; otherwise the store creates the task from the trimmed text and the draft's priority, complexity and date (absent if unset); then the draft is reset to "" and absent values and the form closes |
| Incoming.IncomingPage.HandleDoubleClick | src/pages/Incoming/Incoming.tsx:65-71 | the task's id, text, priority and complexity become the edit state; its date does too unless it is absent or the empty string, which leave the picker empty; the draft and the selection are untouched |
| Incoming.IncomingPage.HandleSaveEditing | src/pages/Incoming/Incoming.tsx:73-84 | text that trims to empty changes nothing, so the editing id stays set; otherwise only the editing id is cleared; no task and no log entry ever changes |
| Incoming.IncomingPage.HandleDeleteTask | src/pages/Incoming/Incoming.tsx:86-91 | the store deletes the task; deleting the selected id clears the selection; deleting any other id leaves the selection as it was |
| Incoming.IncomingPage.ActiveTasksCount | src/pages/Incoming/Incoming.tsx:93 | the page's count is the number of tasks not completed |
| TaskUtils.PriorityColor | src/utils/TaskUtils.ts:4-17 | the colour is one of red, orange, blue and default; it is "default" exactly for "Низкий" and for an absent priority |
| TaskUtils.PriorityColorCollisions | src/utils/TaskUtils.ts:4-17 | two priorities get the same colour only if they are equal, or both are low-or-absent, so the mapping is not injective |
| TaskUtils.ComplexityColor | src/utils/TaskUtils.ts:19-30 | the colour is one of volcano, gold, green and default; it is "default" exactly for an absent complexity |
| TaskUtils.ComplexityColorInjective | src/utils/TaskUtils.ts:19-30 | different complexities, or a complexity and none, get different colours |
| TextUtils.PluralizeTasks | src/utils/TextUtils.ts:1-7 | the label is always one of the three forms |
| TextUtils.PluralizeByDigits | src/utils/TextUtils.ts:2-6 | for natural counts, the remainder tests agree with the grammar rule: a tens digit of 1 takes "активных задач"; otherwise a last digit of 1 takes "активная задача", 2-4 take "активные задачи", and any other takes "активных задач" |
| TextUtils.PluralizePeriodic | src/utils/TextUtils.ts:2-6 | the label depends only on the last two digits: n and n + 100 get the same label |
| TextUtils.PluralizeNegative | src/utils/TextUtils.ts:2-6 | with JavaScript's remainder, a negative count always gets "активных задач" |
| TextUtils.PluralizeSamples | src/utils/TextUtils.ts:1-7 | 0, 5, 11, 14, 111, 112, 114 get "активных задач"; 1, 21, 101 get "активная задача"; 2, 4, 22 get "активные задачи" |
| TaskCounter.GetTaskLabel | src/components/Pages/taskCounter.tsx:8-13 | the counter's label is always one of the three forms |
| TaskCounter.GetTaskLabelAgrees | src/components/Pages/taskCounter.tsx:8-13 | the counter's copy of the rule equals `pluralizeTasks` on every count |
| TaskCounter.CounterText | src/components/Pages/taskCounter.tsx:17 | the rendered text has a space right after the count's digits, and everything after that space is `pluralizeTasks(count)` |
| TaskCounter.CounterTextParts | src/components/Pages/taskCounter.tsx:17 | the rendered text is the count's digits, a single space, then the label: split at the first space, it gives back the count and `pluralizeTasks(count)` |

## Left out

- Persistence: `loadTasksFromStorage` and `saveTasksToStorage` wrap `localStorage` and JSON. The effect that saves on every change is left out too. The store's constructor takes the loaded list as a parameter.
- Id generation with `Date.now()`: this reads the clock. The id is a parameter of `CreateTask` and `HandleCreateTask`. Distinct ids are promised only when the caller passes a fresh id.
- React semantics: batched state updates, stale closures and `useCallback` dependencies. Each operation is modelled as one sequential step that sees the latest state.
- Date handling: `dayjs`, `formatDate` and the date utilities depend on JavaScript `Date`, the locale and the clock. A picked date is represented by its ISO string, so the page's `toISOString()` and `dayjs(...)` conversions are the identity here. The truthiness test on a stored date before `dayjs(...)` is modelled: an empty date string opens the editor with no date.
- UI-only code: components, CSS class mappings, toast messages, the "new task" and cancel buttons, and the document keydown listener that calls `handleDeleteTask`. The handler it calls is modelled.
- Edit commit and redo: neither exists in the code.
- UseTasks.TaskStore.UpdateTask: a `Partial<Task>` that sets `id`, `text` or `completed` explicitly to `undefined` is not modelled, because those fields have no absent value in the model. Optional fields may be given as absent.
- TextUtils.PluralizeTasks: does not model non-integer counts, because JavaScript numbers may be fractional but a count of tasks never is.
- JsText.DecimalString: renders every natural number as plain digits; JavaScript switches to exponent form from 10^21 on, which a count of tasks never reaches.
- TaskCounter.CounterText: the count is a natural number, because the page only passes a count of tasks. Negative and fractional renderings are not modelled.
- UseTasks.AfterCreate, UseTasks.AfterDelete, UseTasks.AfterToggle: their own contracts state only the invariants they keep. Their effect on the tasks and the log is stated by the `TaskStore` methods that use them and by the round-trip lemmas.
