# To-do widget task store, in Dafny

This project models the state logic of the `TodoApp` object in `script.js`, a
browser to-do list. The object holds an ordered list of task records. Each record
has an `id`, `text`, `completed`, `important`, `category` and `createdAt`. The
object also holds the selected filter. The user can:

- add a task (the newest goes first);
- delete a task by id;
- toggle a task's `completed` flag;
- clear the completed tasks;
- pick a filter: `all`, `completed`, `pending` or `important`;
- read the counters (total, completed, pending);
- export the list with counters to a JSON file;
- import such a file.

Every change writes the whole list to local storage.

Modules:

- `JsText` (`js_text.dfy`) models `String.prototype.trim`. Whitespace is the
  WhiteSpace and LineTerminator set of ECMA-262, sections 12.2 and 12.3.
- `TaskList` (`task_list.dfy`) holds the task record and the pure computations.
  `Keep` models `Array.prototype.filter` over one of the conditions the widget
  uses. It serves the filtered view, delete and clear-completed. The module also
  has the counters, the export record, the import shape check, the toggle map and
  the category labels, with the lemmas about them.
- `App` (`todo_app.dfy`) holds the `TodoApp` class. Its fields are `tasks` and
  `currentFilter`. A ghost field `saved` stands for what local storage holds under
  the key `tasks`. Each method's contract gives the new list, the new filter and
  the new snapshot in terms of the old state and the `TaskList` functions.

Browser inputs are method arguments:

- a `confirm()` answer is `confirmed: bool`;
- `Date.now()` and `new Date().toISOString()` are `now` and `createdAt`
  (`exportedAt` for an export);
- the text, checkbox and category of the form are `input`, `important` and
  `category`;
- the result of `JSON.parse` on an import file is an `Option<Document>`, where
  `None` means the parse threw.

The notification an operation shows follows from its returned value or its
arguments:

- `AddTask`, `ExportTasks` and `ImportTasks` return a `Result` whose failure case
  names the error notification;
- `ClearCompleted` returns a `ClearOutcome`: no completed task (info
  notification), dialog declined (none), or the number of tasks cleared (success);
- `DeleteTask` shows its success notification exactly when `confirmed` holds;
- `ToggleTask` and `SetFilter` show none.

The ghost predicate `Persisted` states that storage holds the current list, or
nothing and the list is empty. The constructor establishes it and every method
keeps it.

Notes on what the code does:

- `deleteTask` saves the list even when no task had the id.
- `setFilter` stores any value it is given. Values other than the three named
  filters show the whole list through the `default` branch of
  `getFilteredTasks`; they are not mapped back to `all`.
- Ids are `Date.now()` values and imported ids are taken as they are, so nothing
  makes them unique. Lemmas that need distinct ids require `UniqueIds`.
- The constructor does not survive malformed stored data: `JSON.parse` throws.
  The model's constructor takes the stored list or its absence.
- `clearCompleted` returns nothing in the code. The model returns which of its
  three outcomes happened, with the number of tasks removed, the count the
  confirmation dialog shows.

## Model

| member | source | states |
|---|---|---|
| `JsText.TrimStart` | script.js:56 | the result is the longest suffix of the input not starting with whitespace, and everything dropped is whitespace |
| `JsText.TrimEnd` | script.js:56 | the result is the longest prefix of the input not ending with whitespace, and everything dropped is whitespace |
| `JsText.Trim` | script.js:56-58 | the result neither starts nor ends with whitespace, and it is empty exactly when the input is all whitespace, which is when the add is refused |
| `JsText.TrimIsSlice` | script.js:56 | the input is whitespace, then the trimmed text, then whitespace: only surrounding whitespace is dropped |
| `TaskList.Keep` | script.js:127-138 | a filter result is never longer than the list and every task in it satisfies the condition |
| `TaskList.KeepIsSubsequence` | script.js:127-138 | a filter result keeps the tasks in their stored order (it is a subsequence of the list) |
| `TaskList.KeepMultiplicity` | script.js:127-138 | a filter result holds every copy of each task satisfying the condition and no copy of any other |
| `TaskList.KeepAll` | script.js:89 | a filter returns the list unchanged exactly when every task satisfies the condition |
| `TaskList.KeepNone` | script.js:284-286 | a filter returns nothing exactly when no task satisfies the condition |
| `TaskList.KeepIdempotent` | script.js:292 | filtering twice with one condition is filtering once |
| `TaskList.KeepPartition` | script.js:174-176 | completed tasks and pending tasks together are all the tasks |
| `TaskList.Filtered` | script.js:127-138 | the view is never longer than the list and shows only tasks the filter value selects; `FilteredView` completes it |
| `TaskList.FilteredView` | script.js:127-138 | the view under `completed`, `pending` or `important` is the subsequence of exactly the tasks with `completed`, `!completed` or `important`, every copy of each; any other filter value, `all` included, gives the whole list in stored order |
| `TaskList.CountStats` | script.js:173-181 | total is the list length; completed is the number of completed tasks; pending is `total - completed` and equals the number of incomplete tasks |
| `TaskList.ExportData` | script.js:301-313 | export is refused exactly when the list is empty; otherwise the record holds the whole list and the given timestamp, its counters add up, and they agree with the on-screen counters |
| `TaskList.ImportOutcome` | script.js:334-348 | the list is accepted exactly when the file parsed, is not `null`, and its `tasks` member is an array, and then it is that array; a parse failure or `null` is a read error, anything else a format error |
| `TaskList.Reread` | script.js:315 | the document read back from an export file passes the import shape check and yields the exported array; this is the assumption that JSON write and read preserve the array |
| `TaskList.ExportImportRoundTrip` | script.js:336-337 | importing the file written by export of a non-empty list gives back that list: the composition of `ExportData`'s `tasks` field with `ImportOutcome`, under the write-and-read assumption `Reread` states |
| `TaskList.Toggled` | script.js:105-107 | toggle keeps the length and order; each task keeps every field but `completed`; `completed` flips exactly on the tasks with the id |
| `TaskList.ToggleTwice` | script.js:105-107 | toggling the same id twice restores the list |
| `TaskList.ToggleOne` | script.js:105-107 | with distinct ids, toggling changes only the task with the id and moves the completed counter by one in the matching direction, total unchanged |
| `TaskList.ToggleAbsent` | script.js:105-107 | toggling an id no task has leaves the list unchanged |
| `TaskList.DeleteOne` | script.js:89 | with distinct ids, deleting the id of the task at index k gives the list without that one task, the others in order |
| `TaskList.DeleteAbsent` | script.js:89 | deleting an id no task has leaves the list unchanged |
| `TaskList.KeepUniqueIds` | script.js:89 | delete and clear-completed keep distinct ids distinct |
| `TaskList.AddStats` | script.js:73 | prepending a new incomplete task raises the total and pending counters by one and leaves completed alone; with a fresh id, ids stay distinct |
| `TaskList.ClearCompletedResult` | script.js:284-292 | after clear-completed, no completed task remains; every incomplete task is kept, in order, with its multiplicity; the number removed is the completed counter; with none completed the list is unchanged; clearing again changes nothing |
| `TaskList.CategoryLabel` | script.js:207-215 | the four known categories get their label, and the label equals the raw value exactly when the category is not one of them |
| `App.TodoApp.constructor` | script.js:2-6 | the list is the stored list, or empty when storage holds none; the filter is `all`; `Persisted` holds, and every method below keeps it |
| `App.TodoApp.GetFilteredTasks` | script.js:127-138 | the view of the current list under the current filter is never longer than the list and shows only tasks the filter selects |
| `App.TodoApp.GetStats` | script.js:173-176 | total is the list length, completed is the number of completed tasks, and completed plus pending is total |
| `App.TodoApp.AddTask` | script.js:51-85 | all-whitespace text is refused and nothing changes; otherwise the new task has the id, the trimmed text, the flags and the category given, is incomplete, goes in front of the unchanged old list, and the list is saved |
| `App.TodoApp.DeleteTask` | script.js:87-96 | once confirmed, the list is the old list without the tasks with that id, and it is saved; without confirmation nothing changes |
| `App.TodoApp.ToggleTask` | script.js:104-111 | the list is the toggled old list and it is saved; the filter is unchanged |
| `App.TodoApp.SetFilter` | script.js:114-115 | the filter is the value given; the list and the snapshot are unchanged |
| `App.TodoApp.ClearCompleted` | script.js:283-299 | the outcome is "none completed" exactly when the completed counter is 0, "declined" exactly when there are completed tasks and no confirmation, and otherwise "cleared" with the completed counter; only on "cleared" does anything change: the list is the old incomplete tasks, it is saved, and its length drops by that count |
| `App.TodoApp.ExportTasks` | script.js:301-313 | the exported data is the export record of the current list |
| `App.TodoApp.ImportTasks` | script.js:331-349 | on an accepted file the list is the file's array and it is saved; on any error nothing changes |
| `App.Scenario` | script.js:64-74 | from an empty list, adding a plain task and then an important one gives an important view of exactly the second task and counters 2, 0, 2 |
| `App.ScenarioTwoTasks` | script.js:127-138 | the important view and the counters of that two-task list |

## Left out

- Rendering and the DOM are not modelled: `renderTasks`, `toggleEmptyState`, `updateDate`, the active-button update in `setFilter`, `escapeHtml`, the form reset after an add, and the `completing` class set by `toggleTask`. They change no task state.
- Notifications are not modelled: `showNotification`, `removeNotification`, `getNotificationIcon` and their timers. Which notification is shown follows from the returned values and the arguments, as described above.
- `formatTime` is not modelled: it reads the wall clock and formats dates by locale.
- `setTimeout` in `toggleTask` is not modelled as a delay. `ToggleTask` is the callback body, run at once.
- `confirm()` dialogs, `Date.now()` and `new Date()` are arguments, not calls.
- `localStorage`, `FileReader`, `Blob` and the download link are not modelled. The snapshot is the ghost field `saved`. A storage write that throws (quota) is not modelled.
- `JSON.parse` and `JSON.stringify` are not modelled. An import file is given as its parsed value. `TaskList.Reread` takes the write-then-read of an export file to give back its task array unchanged.
- TaskList.ImportOutcome: an array element that is not a task record cannot be represented, because the list holds `Task` values. The code accepts any array content.
- App.TodoApp.constructor: stored data that is not valid JSON is not modelled; the code throws there. A stored non-array JSON value is not modelled either.
- TaskList.CategoryLabel: a category naming an inherited object property (`toString`, `constructor`, ...) is not modelled. In the code the lookup on the object literal finds that property.
- The demo-data bootstrap and the file-input wiring at the end of `script.js` are not modelled: they are event and DOM setup.
