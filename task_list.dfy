/** The list component's own logic: the filter that decides which tasks are drawn
    (in list order, with no sorting) and the guard on the end of a drag. */
module TaskList {
  import opened Basics
  import opened Seqs
  import opened Text
  import opened Types
  import opened Helpers
  import opened UseTasks

  /** The display filter for one task: the status must match and, when the search
      string is non-empty as typed (it is not trimmed), the lower-cased task text must
      contain the lower-cased search. */
  predicate Shown(t: Task, filters: TaskFilters) {
    !(filters.status == Active && t.completed) &&
    !(filters.status == Completed && !t.completed) &&
    !(filters.search != "" && !Contains(Lower(t.todo), Lower(filters.search)))
  }

  function ShownBy(filters: TaskFilters): Task -> bool {
    (t: Task) => Shown(t, filters)
  }

  /** The tasks the list draws: a subsequence of `tasks`, in their order, made of the
      tasks whose status matches and whose text contains the search as typed. */
  function DisplayedTasks(tasks: seq<Task>, filters: TaskFilters): (r: seq<Task>)
    ensures IsSubsequence(r, tasks)
    ensures forall t :: t in r <==>
      t in tasks && MatchesStatus(t, filters.status) &&
      (filters.search == "" || Contains(Lower(t.todo), Lower(filters.search)))
  {
    FilterIsSubsequence(ShownBy(filters), tasks);
    Filter(ShownBy(filters), tasks)
  }

  /** The sort option plays no part in what the list draws. */
  lemma DisplayIgnoresSort(tasks: seq<Task>, filters: TaskFilters, sort: SortOption)
    ensures DisplayedTasks(tasks, filters.(sort := sort)) == DisplayedTasks(tasks, filters)
  {
    FilterCongruent(ShownBy(filters), ShownBy(filters.(sort := sort)), tasks);
  }

  /** The list draws exactly what `filterTasks` returns, except when the search string
      is non-empty but all white space: `filterTasks` then ignores it, while the list
      still filters by it. */
  lemma DisplayAgreesWithFilterTasks(tasks: seq<Task>, filters: TaskFilters)
    requires filters.search == "" || !IsBlank(filters.search)
    ensures DisplayedTasks(tasks, filters) == FilterTasks(tasks, filters.status, filters.search)
  {
    FilterTasksSpec(tasks, filters.status, filters.search);
    FilterCongruent(ShownBy(filters), KeepBy(filters.status, filters.search), tasks);
  }

  /** A white-space search hides a task with empty text from the list although
      `filterTasks` keeps it. */
  lemma BlankSearchDiffers(search: string)
    requires search != "" && IsBlank(search)
    ensures var t := Task(1, "", false, 1, None, None, None);
      DisplayedTasks([t], TaskFilters(All, search, Created)) == [] &&
      FilterTasks([t], All, search) == [t]
  {
    var t := Task(1, "", false, 1, None, None, None);
    assert |Lower(search)| == |search|;
    assert !Contains(Lower(t.todo), Lower(search));
    TrimEmptyIffBlank(search);
  }

  /** `handleDragEnd`: the reorder call made for a drop, if any — only when the drag
      ended over an item and that item is not the dragged one. */
  function DragEnd(activeId: string, overId: Option<string>): (call: Option<(string, string)>)
    ensures call.Some? <==> overId.Some? && overId.value != activeId
    ensures call.Some? ==> call.value == (activeId, overId.value)
  {
    match overId
    case Some(over) => if activeId != over then Some((activeId, over)) else None
    case None => None
  }

  /** A reorder call made by a drop always moves a task onto a different position: when
      both keys are found among the local tasks they are found at different indices. */
  lemma DragEndMovesToAnotherIndex(local: seq<Task>, activeId: string, overId: Option<string>)
    requires DragEnd(activeId, overId).Some?
    requires KeyIndex(local, activeId) != -1
    ensures KeyIndex(local, activeId) != KeyIndex(local, overId.value)
  {
    var i := KeyIndex(local, activeId);
    assert IdToString(local[i].id) == activeId;
  }

  /** Dropping a task onto itself would change nothing anyway: a move onto the same
      index gives back the list it started from. */
  lemma SameKeyReorderIsNoOp(view: seq<Task>, stored: seq<Task>, key: string)
    requires KeyIndex(LocalPart(view, stored), key) != -1
    ensures var local := LocalPart(view, stored);
      var i := KeyIndex(local, key);
      Reordered(local, i, i) == local
  {
    var local := LocalPart(view, stored);
    MoveSelf(local, KeyIndex(local, key));
  }
}
