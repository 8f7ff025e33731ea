/** The TodoApp object: the task list and the selected filter, updated in place by
    the widget's operations, each of which writes the whole list back to local
    storage. Rendering, notifications and dialogs are not part of this model: a
    confirmation dialog is the `confirmed` argument and the clock is an argument. */
module App {
  import opened TaskList
  import opened JsText

  /** The three ways clearCompleted ends: no completed task (an info notification, no
      dialog), the dialog declined (no notification), or `count` tasks removed. */
  datatype ClearOutcome = NoneCompleted | Declined | Cleared(count: nat)

  class TodoApp {
    /** The task list, newest first. */
    var tasks: seq<Task>
    /** The `data-filter` value of the last filter button pressed. */
    var currentFilter: string
    /** What local storage holds under the key `tasks`; None when nothing was written yet. */
    ghost var saved: Option<seq<Task>>

    /** Local storage holds the current list, or nothing was ever written and the list
        is empty: every write stores the whole list. */
    ghost predicate Persisted()
      reads this
    {
      saved == Some(tasks) || (saved == None && tasks == [])
    }

    /** The list in storage, or the empty list when storage holds none. */
    constructor (stored: Option<seq<Task>>)
      ensures tasks == (if stored.Some? then stored.value else [])
      ensures currentFilter == "all"
      ensures saved == stored
      ensures Persisted()
    {
      tasks := if stored.Some? then stored.value else [];
      currentFilter := "all";
      saved := stored;
    }

    /** The tasks the current filter shows. */
    function GetFilteredTasks(): (r: seq<Task>)
      reads this
      ensures |r| <= |tasks|
      ensures forall i :: 0 <= i < |r| ==> ShownUnder(currentFilter, r[i])
    {
      Filtered(tasks, currentFilter)
    }

    /** The counters shown under the list. */
    function GetStats(): (s: Stats)
      reads this
      ensures s.total == |tasks| && s.completed + s.pending == s.total
      ensures s.completed == |Keep(tasks, IsCompleted)|
    {
      CountStats(tasks)
    }

    /** Adds a task for the typed text `input`: refused, with nothing changed, when the
        text is all whitespace; otherwise a new incomplete task with the trimmed text
        goes in front of the list and the list is saved. */
    method AddTask(input: string, important: bool, category: string, now: int, createdAt: string)
      returns (r: Result<Task, TodoError>)
      modifies this
      ensures r.Failure? <==> AllWhitespace(input)
      ensures r.Failure? ==> r.error == EmptyText && unchanged(this)
      ensures r.Success? ==> r.value == Task(now, Trim(input), false, important, category, createdAt)
      ensures r.Success? ==> tasks == [r.value] + old(tasks) && saved == Some(tasks)
      ensures currentFilter == old(currentFilter)
      ensures old(Persisted()) ==> Persisted()
    {
      var text := Trim(input);
      if text == [] {
        return Failure(EmptyText);
      }
      var task := Task(now, text, false, important, category, createdAt);
      tasks := [task] + tasks;
      saved := Some(tasks);
      r := Success(task);
    }

    /** Removes every task with id `taskId` once the user confirms, and saves the list
        (also when no task had that id). */
    method DeleteTask(taskId: int, confirmed: bool)
      modifies this
      ensures !confirmed ==> unchanged(this)
      ensures confirmed ==> tasks == Keep(old(tasks), IdOtherThan(taskId)) && saved == Some(tasks)
      ensures currentFilter == old(currentFilter)
      ensures old(Persisted()) ==> Persisted()
    {
      if confirmed {
        tasks := Keep(tasks, IdOtherThan(taskId));
        saved := Some(tasks);
      }
    }

    /** The delayed part of toggleTask: flips `completed` on every task with id `taskId`
        and saves the list. */
    method ToggleTask(taskId: int)
      modifies this
      ensures tasks == Toggled(old(tasks), taskId) && saved == Some(tasks)
      ensures currentFilter == old(currentFilter)
      ensures Persisted()
    {
      tasks := Toggled(tasks, taskId);
      saved := Some(tasks);
    }

    /** Selects the view; any value is stored, and values other than the three named
        filters show the whole list. */
    method SetFilter(filter: string)
      modifies this
      ensures currentFilter == filter
      ensures tasks == old(tasks) && saved == old(saved)
      ensures old(Persisted()) ==> Persisted()
    {
      currentFilter := filter;
    }

    /** Removes the completed tasks once the user confirms the dialog that shows their
        number. With no completed task there is no dialog, and nothing changes or is
        written; a declined dialog changes nothing either. */
    method ClearCompleted(confirmed: bool) returns (r: ClearOutcome)
      modifies this
      ensures r == NoneCompleted <==> CountStats(old(tasks)).completed == 0
      ensures r == Declined <==> CountStats(old(tasks)).completed != 0 && !confirmed
      ensures r.Cleared? ==> r.count == CountStats(old(tasks)).completed
      ensures !r.Cleared? ==> unchanged(this)
      ensures r.Cleared? ==>
                tasks == Keep(old(tasks), IsPending) && saved == Some(tasks)
                && |old(tasks)| - |tasks| == r.count
      ensures currentFilter == old(currentFilter)
      ensures old(Persisted()) ==> Persisted()
    {
      var completedCount := |Keep(tasks, IsCompleted)|;
      if completedCount == 0 {
        return NoneCompleted;
      }
      if confirmed {
        KeepPartition(tasks);
        tasks := Keep(tasks, IsPending);
        saved := Some(tasks);
        r := Cleared(completedCount);
      } else {
        r := Declined;
      }
    }

    /** The data exportTasks writes to the download file. */
    method ExportTasks(exportedAt: string) returns (r: Result<Export, TodoError>)
      ensures r == ExportData(tasks, exportedAt)
      ensures r.Failure? <==> tasks == []
      ensures r.Success? ==> r.value.tasks == tasks
    {
      r := ExportData(tasks, exportedAt);
    }

    /** The onload handler of importTasks: replaces and saves the list when the parsed
        file has a `tasks` array, and leaves everything untouched otherwise. */
    method ImportTasks(parsed: Option<Document>) returns (r: Result<seq<Task>, TodoError>)
      modifies this
      ensures r == ImportOutcome(parsed)
      ensures r.Success? ==> tasks == r.value && saved == Some(tasks)
      ensures r.Failure? ==> unchanged(this)
      ensures currentFilter == old(currentFilter)
      ensures old(Persisted()) ==> Persisted()
    {
      r := ImportOutcome(parsed);
      if r.Success? {
        tasks := r.value;
        saved := Some(tasks);
      }
    }
  }

  /** Starting empty, adding a plain shopping task and then an important work task
      gives an important view of exactly the second task and counters 2, 0, 2. */
  method Scenario(milk: string, report: string) returns (view: seq<Task>, stats: Stats)
    requires !AllWhitespace(milk) && !AllWhitespace(report)
    ensures |view| == 1 && view[0].text == Trim(report) && view[0].category == "work"
    ensures stats == Stats(2, 0, 2)
  {
    var app := new TodoApp(None);
    var first := app.AddTask(milk, false, "shopping", 1, "t1");
    var second := app.AddTask(report, true, "work", 2, "t2");
    assert first.Success? && second.Success?;
    var ts := [second.value] + [first.value];
    assert app.tasks == ts;
    ScenarioTwoTasks(first.value, second.value);
    app.SetFilter("important");
    view := app.GetFilteredTasks();
    stats := app.GetStats();
  }

  /** The view and counters of the two-task list the scenario builds. */
  lemma ScenarioTwoTasks(t1: Task, t2: Task)
    requires t2.important && !t1.important && !t1.completed && !t2.completed
    ensures Filtered([t2] + [t1], "important") == [t2]
    ensures CountStats([t2] + [t1]) == Stats(2, 0, 2)
  {
    var ts := [t2] + [t1];
    assert ts[0] == t2 && ts[1..] == [t1] && [t1][1..] == [];
    assert "important" != "completed" by { assert "important"[0] != "completed"[0]; }
    assert "important" != "pending" by { assert "important"[0] != "pending"[0]; }
    assert Filtered(ts, "important") == Keep(ts, IsImportant);
    assert Keep([t1], IsImportant) == [];
    assert Keep([t1], IsCompleted) == [];
  }
}
