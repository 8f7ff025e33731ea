/** The task records of the to-do widget and the pure computations over the task
    list: the filtered views, the counters, the export record, the import shape
    check and the category labels. */
module TaskList {

  datatype Option<T> = None | Some(value: T)

  datatype Result<T, E> = Success(value: T) | Failure(error: E)

  /** One task. `id` is the creation time in milliseconds and `createdAt` its ISO-8601
      text; neither is guaranteed unique by the widget. */
  datatype Task = Task(
    id: int,
    text: string,
    completed: bool,
    important: bool,
    category: string,
    createdAt: string)

  /** The failures the widget reports to the user by a notification. */
  datatype TodoError =
    | EmptyText        // the trimmed task text is empty
    | NothingToExport  // export asked for with no task
    | UnreadableFile   // the import file did not parse, or reading its `tasks` threw
    | WrongFormat      // the import file has no `tasks` array

  // ---------------------------------------------------------------------------
  // Selecting tasks

  /** The conditions `Array.prototype.filter` is called with on the task list. */
  datatype Criterion =
    | IsCompleted
    | IsPending
    | IsImportant
    | IdOtherThan(id: int)

  predicate Holds(c: Criterion, t: Task) {
    match c
    case IsCompleted => t.completed
    case IsPending => !t.completed
    case IsImportant => t.important
    case IdOtherThan(id) => t.id != id
  }

  /** `ts.filter(t => Holds(c, t))`: the tasks satisfying `c`, in their order in `ts`. */
  function Keep(ts: seq<Task>, c: Criterion): (r: seq<Task>)
    ensures |r| <= |ts|
    ensures forall i :: 0 <= i < |r| ==> Holds(c, r[i])
  {
    if ts == [] then []
    else if Holds(c, ts[0]) then [ts[0]] + Keep(ts[1..], c)
    else Keep(ts[1..], c)
  }

  /** `sub` is `s` with some elements taken out and the rest in their order. */
  ghost predicate IsSubsequence<T>(sub: seq<T>, s: seq<T>)
    decreases |s|
  {
    sub == [] ||
    (s != [] && ((sub[0] == s[0] && IsSubsequence(sub[1..], s[1..])) || IsSubsequence(sub, s[1..])))
  }

  lemma {:induction false} SubsequenceReflexive<T>(s: seq<T>)
    ensures IsSubsequence(s, s)
  {
    if s != [] {
      SubsequenceReflexive(s[1..]);
    }
  }

  /** Keep takes nothing but elements of `ts`, in their order. */
  lemma {:induction false} KeepIsSubsequence(ts: seq<Task>, c: Criterion)
    ensures IsSubsequence(Keep(ts, c), ts)
  {
    if ts != [] {
      KeepIsSubsequence(ts[1..], c);
      if Holds(c, ts[0]) {
        assert Keep(ts, c)[1..] == Keep(ts[1..], c);
      }
    }
  }

  /** Keep keeps every copy of each task satisfying `c` and no copy of any other. */
  lemma {:induction false} KeepMultiplicity(ts: seq<Task>, c: Criterion, t: Task)
    ensures multiset(Keep(ts, c))[t] == if Holds(c, t) then multiset(ts)[t] else 0
  {
    if ts != [] {
      KeepMultiplicity(ts[1..], c, t);
      assert ts == [ts[0]] + ts[1..];
    }
  }

  lemma KeepCounts(ts: seq<Task>, c: Criterion)
    ensures forall t :: multiset(Keep(ts, c))[t] == if Holds(c, t) then multiset(ts)[t] else 0
  {
    forall t { KeepMultiplicity(ts, c, t); }
  }

  /** The filter returns the list itself exactly when every task satisfies the condition. */
  lemma {:induction false} KeepAll(ts: seq<Task>, c: Criterion)
    ensures Keep(ts, c) == ts <==> forall i :: 0 <= i < |ts| ==> Holds(c, ts[i])
  {
    if ts != [] {
      KeepAll(ts[1..], c);
      if !Holds(c, ts[0]) {
        assert |Keep(ts, c)| < |ts|;
      }
    }
  }

  /** The filter returns nothing exactly when no task satisfies the condition. */
  lemma {:induction false} KeepNone(ts: seq<Task>, c: Criterion)
    ensures Keep(ts, c) == [] <==> forall i :: 0 <= i < |ts| ==> !Holds(c, ts[i])
  {
    if ts != [] {
      KeepNone(ts[1..], c);
      assert forall i :: 1 <= i < |ts| ==> ts[i] == ts[1..][i - 1];
    }
  }

  /** Filtering twice with the same condition is filtering once. */
  lemma KeepIdempotent(ts: seq<Task>, c: Criterion)
    ensures Keep(Keep(ts, c), c) == Keep(ts, c)
  {
    KeepAll(Keep(ts, c), c);
  }

  /** Every task is either completed or pending. */
  lemma {:induction false} KeepPartition(ts: seq<Task>)
    ensures |Keep(ts, IsCompleted)| + |Keep(ts, IsPending)| == |ts|
  {
    if ts != [] {
      KeepPartition(ts[1..]);
    }
  }

  // ---------------------------------------------------------------------------
  // The filtered view (getFilteredTasks)

  /** Whether the view selected by the filter button value `filter` shows `t`. */
  predicate ShownUnder(filter: string, t: Task) {
    if filter == "completed" then t.completed
    else if filter == "pending" then !t.completed
    else if filter == "important" then t.important
    else true
  }

  /** `getFilteredTasks` for the filter value `filter`: a switch over the three named
      filters, with every other value falling to the `default` branch. */
  function Filtered(ts: seq<Task>, filter: string): (r: seq<Task>)
    ensures |r| <= |ts|
    ensures forall i :: 0 <= i < |r| ==> ShownUnder(filter, r[i])
  {
    if filter == "completed" then Keep(ts, IsCompleted)
    else if filter == "pending" then Keep(ts, IsPending)
    else if filter == "important" then Keep(ts, IsImportant)
    else ts
  }

  /** The view is the subsequence of the stored list made of exactly the tasks the
      filter shows, every copy of each; any value other than the three named filters
      (`all` among them) shows the whole list in stored order. */
  lemma FilteredView(ts: seq<Task>, filter: string)
    ensures IsSubsequence(Filtered(ts, filter), ts)
    ensures forall t :: multiset(Filtered(ts, filter))[t] == if ShownUnder(filter, t) then multiset(ts)[t] else 0
    ensures filter != "completed" && filter != "pending" && filter != "important" ==> Filtered(ts, filter) == ts
  {
    if filter == "completed" {
      KeepIsSubsequence(ts, IsCompleted);
      KeepCounts(ts, IsCompleted);
    } else if filter == "pending" {
      KeepIsSubsequence(ts, IsPending);
      KeepCounts(ts, IsPending);
    } else if filter == "important" {
      KeepIsSubsequence(ts, IsImportant);
      KeepCounts(ts, IsImportant);
    } else {
      SubsequenceReflexive(ts);
    }
  }

  // ---------------------------------------------------------------------------
  // Counters (updateStats) and the export record (exportTasks)

  datatype Stats = Stats(total: nat, completed: nat, pending: nat)

  /** The three counters shown under the list, taken over the whole list (not the view):
      `pending` is computed as `total - completed`, and is the number of incomplete tasks. */
  function CountStats(ts: seq<Task>): (s: Stats)
    ensures s.total == |ts| && s.completed + s.pending == s.total
    ensures s.completed == |Keep(ts, IsCompleted)| && s.pending == |Keep(ts, IsPending)|
  {
    KeepPartition(ts);
    var total := |ts|;
    var completed := |Keep(ts, IsCompleted)|;
    Stats(total, completed, total - completed)
  }

  datatype Export = Export(
    exportedAt: string,
    totalTasks: nat,
    completedTasks: nat,
    pendingTasks: nat,
    tasks: seq<Task>)

  /** The object exportTasks serialises: refused for an empty list; otherwise the whole
      list with counters that agree with the counters shown on screen. */
  function ExportData(ts: seq<Task>, exportedAt: string): (r: Result<Export, TodoError>)
    ensures r.Failure? <==> ts == []
    ensures r.Failure? ==> r.error == NothingToExport
    ensures r.Success? ==> r.value.tasks == ts && r.value.exportedAt == exportedAt
    ensures r.Success? ==> r.value.completedTasks + r.value.pendingTasks == r.value.totalTasks == |ts|
    ensures r.Success? ==> var s := CountStats(ts);
                           r.value.completedTasks == s.completed && r.value.pendingTasks == s.pending
  {
    if |ts| == 0 then Failure(NothingToExport)
    else
      KeepPartition(ts);
      Success(Export(exportedAt, |ts|, |Keep(ts, IsCompleted)|, |Keep(ts, IsPending)|, ts))
  }

  // ---------------------------------------------------------------------------
  // Import (importTasks)

  /** What the `tasks` member of a parsed import file holds. */
  datatype TasksMember = Missing | NotArray | TaskArray(items: seq<Task>)

  /** A value JSON.parse produced from an import file: `null`, or any other value,
      described by its `tasks` member (absent on numbers, strings and booleans). */
  datatype Document = NullDocument | Value(tasks: TasksMember)

  /** The import shape check. `parsed` is None when JSON.parse threw; reading `tasks`
      of `null` throws too, and both are reported as an unreadable file. Only a
      `tasks` member that is an array is accepted, and then it is taken as it is. */
  function ImportOutcome(parsed: Option<Document>): (r: Result<seq<Task>, TodoError>)
    ensures r.Success? <==> parsed.Some? && parsed.value.Value? && parsed.value.tasks.TaskArray?
    ensures r.Success? ==> r.value == parsed.value.tasks.items
    ensures r.Failure? ==> r.error == if parsed.None? || parsed.value.NullDocument? then UnreadableFile else WrongFormat
  {
    match parsed
    case None => Failure(UnreadableFile)
    case Some(NullDocument) => Failure(UnreadableFile)
    case Some(Value(TaskArray(items))) => Success(items)
    case Some(Value(_)) => Failure(WrongFormat)
  }

  /** JSON.parse(JSON.stringify(e)) as the import sees it: an object whose `tasks`
      member is the exported array. */
  function Reread(e: Export): (d: Document)
    ensures ImportOutcome(Some(d)) == Success(e.tasks)
  {
    Value(TaskArray(e.tasks))
  }

  /** Importing a file written by export restores the exported list. */
  lemma ExportImportRoundTrip(ts: seq<Task>, exportedAt: string)
    requires ts != []
    ensures ExportData(ts, exportedAt).Success?
    ensures ImportOutcome(Some(Reread(ExportData(ts, exportedAt).value))) == Success(ts)
  {
  }

  // ---------------------------------------------------------------------------
  // Toggle, delete, add, clear: the list-level effect of each operation

  /** `ts.map(t => t.id === id ? {...t, completed: !t.completed} : t)`. */
  function Toggled(ts: seq<Task>, id: int): (r: seq<Task>)
    ensures |r| == |ts|
    ensures forall i :: 0 <= i < |ts| ==> r[i] == ts[i].(completed := r[i].completed)
    ensures forall i :: 0 <= i < |ts| ==> (r[i].completed != ts[i].completed <==> ts[i].id == id)
  {
    if ts == [] then []
    else
      var t := ts[0];
      [if t.id == id then t.(completed := !t.completed) else t] + Toggled(ts[1..], id)
  }

  /** Toggling the same id twice gives back the original list. */
  lemma {:induction false} ToggleTwice(ts: seq<Task>, id: int)
    ensures Toggled(Toggled(ts, id), id) == ts
  {
    if ts != [] {
      ToggleTwice(ts[1..], id);
      assert Toggled(ts, id)[1..] == Toggled(ts[1..], id);
    }
  }

  /** No task is ever shared by two ids: the widget does not ensure this, so the lemmas
      that need it require it. */
  ghost predicate UniqueIds(ts: seq<Task>) {
    forall i, j :: 0 <= i < j < |ts| ==> ts[i].id != ts[j].id
  }

  /** With distinct ids, toggling the task at `k` changes that task alone and moves the
      completed counter by one in the matching direction. */
  lemma {:induction false} ToggleOne(ts: seq<Task>, k: nat)
    requires UniqueIds(ts) && k < |ts|
    ensures Toggled(ts, ts[k].id) == ts[k := ts[k].(completed := !ts[k].completed)]
    ensures CountStats(Toggled(ts, ts[k].id)).total == CountStats(ts).total
    ensures CountStats(Toggled(ts, ts[k].id)).completed
         == CountStats(ts).completed + (if ts[k].completed then -1 else 1)
  {
    var id := ts[k].id;
    var rest := ts[1..];
    if k == 0 {
      ToggleAbsent(rest, id);
      assert Toggled(ts, id) == [ts[0].(completed := !ts[0].completed)] + rest;
    } else {
      assert UniqueIds(rest);
      assert rest[k - 1] == ts[k];
      ToggleOne(rest, k - 1);
      assert Toggled(ts, id) == [ts[0]] + Toggled(rest, id);
      assert ts[k := ts[k].(completed := !ts[k].completed)]
          == [ts[0]] + rest[k - 1 := ts[k].(completed := !ts[k].completed)];
    }
  }

  /** Toggling an id no task has changes nothing. */
  lemma ToggleAbsent(ts: seq<Task>, id: int)
    requires forall i :: 0 <= i < |ts| ==> ts[i].id != id
    ensures Toggled(ts, id) == ts
  {
  }

  /** With distinct ids, deleting the id of the task at `k` removes that task alone;
      deleting an id no task has changes nothing. */
  lemma {:induction false} DeleteOne(ts: seq<Task>, k: nat)
    requires UniqueIds(ts) && k < |ts|
    ensures Keep(ts, IdOtherThan(ts[k].id)) == ts[..k] + ts[k+1..]
  {
    var rest := ts[1..];
    if k == 0 {
      DeleteAbsent(rest, ts[0].id);
      assert ts[..0] + ts[1..] == rest;
    } else {
      assert UniqueIds(rest);
      assert rest[k - 1] == ts[k];
      DeleteOne(rest, k - 1);
      assert ts[..k] + ts[k+1..] == [ts[0]] + (rest[..k - 1] + rest[k..]);
    }
  }

  lemma DeleteAbsent(ts: seq<Task>, id: int)
    requires forall i :: 0 <= i < |ts| ==> ts[i].id != id
    ensures Keep(ts, IdOtherThan(id)) == ts
  {
    KeepAll(ts, IdOtherThan(id));
  }

  /** Prepending a new (incomplete) task raises the total and pending counters by one,
      and keeps ids distinct when its id is new. */
  lemma AddStats(ts: seq<Task>, t: Task)
    requires !t.completed
    ensures CountStats([t] + ts) == CountStats(ts).(total := |ts| + 1, pending := CountStats(ts).pending + 1)
    ensures UniqueIds(ts) && (forall i :: 0 <= i < |ts| ==> ts[i].id != t.id) ==> UniqueIds([t] + ts)
  {
    assert ([t] + ts)[1..] == ts;
  }

  /** Clearing completed tasks leaves no completed task, keeps every incomplete task with
      its multiplicity and in order, and removes as many tasks as the completed counter
      shows; with none completed the list is unchanged, and clearing twice is clearing once. */
  lemma ClearCompletedResult(ts: seq<Task>)
    ensures forall i :: 0 <= i < |Keep(ts, IsPending)| ==> !Keep(ts, IsPending)[i].completed
    ensures IsSubsequence(Keep(ts, IsPending), ts)
    ensures forall t: Task :: !t.completed ==> multiset(Keep(ts, IsPending))[t] == multiset(ts)[t]
    ensures |ts| - |Keep(ts, IsPending)| == CountStats(ts).completed
    ensures CountStats(ts).completed == 0 ==> Keep(ts, IsPending) == ts
    ensures Keep(Keep(ts, IsPending), IsPending) == Keep(ts, IsPending)
  {
    KeepIsSubsequence(ts, IsPending);
    KeepCounts(ts, IsPending);
    KeepNone(ts, IsCompleted);
    KeepAll(ts, IsPending);
    KeepIdempotent(ts, IsPending);
  }

  /** Filtering keeps distinct ids distinct. */
  lemma {:induction false} KeepUniqueIds(ts: seq<Task>, c: Criterion)
    requires UniqueIds(ts)
    ensures UniqueIds(Keep(ts, c))
  {
    if ts != [] {
      var rest := ts[1..];
      assert UniqueIds(rest);
      KeepUniqueIds(rest, c);
      if Holds(c, ts[0]) {
        forall j | 0 <= j < |Keep(rest, c)| ensures Keep(rest, c)[j].id != ts[0].id {
          var u := Keep(rest, c)[j];
          KeepMultiplicity(rest, c, u);
          var m :| 0 <= m < |rest| && rest[m] == u;
          assert ts[m + 1] == u;
        }
      }
    }
  }

  // ---------------------------------------------------------------------------
  // Category labels (getCategoryLabel)

  const CategoryLabels: map<string, string> :=
    map["general" := "Umumiy", "work" := "Ish", "personal" := "Shaxsiy", "shopping" := "Sotib olish"]

  /** The label shown for a category: the known categories get their Uzbek label, and
      the label equals the raw value exactly when the category is not one of them. */
  function CategoryLabel(category: string): (r: string)
    ensures category in CategoryLabels ==> r == CategoryLabels[category]
    ensures r == category <==> category !in CategoryLabels
  {
    if category in CategoryLabels && CategoryLabels[category] != "" then CategoryLabels[category]
    else category
  }
}
