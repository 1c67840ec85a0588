/** The `useTasks` hook: the in-memory list the screen shows, reconciled from a remote
    snapshot and the local store, and the mutations that go through the store.
    Only tasks held by the local store can be changed; remote tasks are read-only. */
module UseTasks {
  import opened Basics
  import opened Seqs
  import opened Text
  import opened Types
  import opened Helpers
  import opened LocalTaskApi

  // ---------------------------------------------------------------- merging

  /** The remote tasks that survive the merge: those no local task shadows. */
  function NotShadowed(local: seq<Task>): Task -> bool {
    (t: Task) => !HasId(local, t.id)
  }

  /** `mergeTasks`: the local tasks first, in their order, then the remote tasks whose
      id no local task has, in fetch order. */
  function MergeTasks(api: seq<Task>, local: seq<Task>): (r: seq<Task>)
    ensures |local| <= |r| <= |local| + |api|
    ensures r[..|local|] == local
    ensures forall k :: |local| <= k < |r| ==> r[k] in api && !HasId(local, r[k].id)
  {
    var rest := Filter(NotShadowed(local), api);
    assert forall k :: 0 <= k < |rest| ==> rest[k] in rest;
    local + rest
  }

  /** After the local prefix comes exactly the subsequence of the remote tasks that are
      not shadowed: each of them as often as in the snapshot, none of the others. */
  lemma MergeRemotePart(api: seq<Task>, local: seq<Task>)
    ensures MergeTasks(api, local)[|local|..] == Filter(NotShadowed(local), api)
    ensures IsSubsequence(MergeTasks(api, local)[|local|..], api)
    ensures forall t: Task :: !HasId(local, t.id) ==>
      multiset(MergeTasks(api, local)[|local|..])[t] == multiset(api)[t]
    ensures forall t: Task :: t in api && HasId(local, t.id) ==> t !in MergeTasks(api, local)[|local|..]
  {
    var r := MergeTasks(api, local);
    assert r[|local|..] == Filter(NotShadowed(local), api);
    FilterIsSubsequence(NotShadowed(local), api);
    FilterCounts(NotShadowed(local), api);
  }

  /** Ids stay unique through the merge exactly when they are unique within the local
      tasks and within the surviving remote tasks: the merge removes no duplicate
      inside either input. */
  lemma MergeUniqueIds(api: seq<Task>, local: seq<Task>)
    ensures UniqueIds(MergeTasks(api, local)) <==>
      UniqueIds(local) && UniqueIds(Filter(NotShadowed(local), api))
    ensures UniqueIds(local) && UniqueIds(api) ==> UniqueIds(MergeTasks(api, local))
  {
    var rest := Filter(NotShadowed(local), api);
    var r := MergeTasks(api, local);
    assert r == local + rest;
    if UniqueIds(local) && UniqueIds(rest) {
      forall i, j | 0 <= i < j < |r| ensures r[i].id != r[j].id {
        if j >= |local| && i < |local| {
          assert r[j] in rest;
          assert r[i] in local;
        } else if i >= |local| {
          assert r[i] == rest[i - |local|] && r[j] == rest[j - |local|];
        }
      }
    }
    if UniqueIds(r) {
      forall i, j | 0 <= i < j < |rest| ensures rest[i].id != rest[j].id {
        assert rest[i] == r[|local| + i] && rest[j] == r[|local| + j];
      }
    }
    if UniqueIds(api) {
      FilterIsSubsequence(NotShadowed(local), api);
      SubsequenceUniqueIds(rest, api);
    }
  }

  lemma {:induction false} SubsequenceUniqueIds(r: seq<Task>, s: seq<Task>)
    requires IsSubsequence(r, s) && UniqueIds(s)
    ensures UniqueIds(r)
  {
    if r != [] {
      if IsSubsequence(r, s[1..]) {
        SubsequenceUniqueIds(r, s[1..]);
      } else {
        SubsequenceUniqueIds(r[1..], s[1..]);
        SubsequenceElements(r[1..], s[1..]);
        forall j | 0 < j < |r| ensures r[0].id != r[j].id {
          assert r[j] == r[1..][j - 1];
          assert r[1..][j - 1] in r[1..];
          var k :| 0 <= k < |s[1..]| && s[1..][k] == r[j];
          assert s[k + 1] == r[j];
        }
      }
    }
  }

  lemma {:induction false} SubsequenceElements<T>(r: seq<T>, s: seq<T>)
    requires IsSubsequence(r, s)
    ensures forall x :: x in r ==> x in s
  {
    if r != [] {
      if IsSubsequence(r, s[1..]) {
        SubsequenceElements(r, s[1..]);
      } else {
        SubsequenceElements(r[1..], s[1..]);
        assert r == [r[0]] + r[1..];
      }
    }
  }

  // ---------------------------------------------------------------- local and remote partitions

  /** The test `reorderTasks` applies to each task of the list: is its id in the store? */
  function InStore(stored: seq<Task>): Task -> bool {
    (t: Task) => HasId(stored, t.id)
  }

  function NotInStore(stored: seq<Task>): Task -> bool {
    (t: Task) => !HasId(stored, t.id)
  }

  /** `prev.filter(t => isLocalTask(t.id))`. */
  function LocalPart(view: seq<Task>, stored: seq<Task>): seq<Task> {
    Filter(InStore(stored), view)
  }

  /** `prev.filter(t => !isLocalTask(t.id))`. */
  function RemotePart(view: seq<Task>, stored: seq<Task>): seq<Task> {
    Filter(NotInStore(stored), view)
  }

  /** The two partitions split the list: together they hold every task of it, each as
      often as the list does. */
  lemma PartitionPermutes(view: seq<Task>, stored: seq<Task>)
    ensures multiset(LocalPart(view, stored)) + multiset(RemotePart(view, stored)) == multiset(view)
  {
    var l, r := LocalPart(view, stored), RemotePart(view, stored);
    FilterCounts(InStore(stored), view);
    FilterCounts(NotInStore(stored), view);
    forall t ensures (multiset(l) + multiset(r))[t] == multiset(view)[t] {
    }
  }

  /** Just after a merge, the partitions give back the merge's inputs: the local
      tasks, and the remote tasks that survived. */
  lemma MergePartition(api: seq<Task>, local: seq<Task>)
    ensures LocalPart(MergeTasks(api, local), local) == local
    ensures RemotePart(MergeTasks(api, local), local) == Filter(NotShadowed(local), api)
  {
    LocalPartOfMerge(api, local);
    RemotePartOfMerge(api, local);
  }

  lemma LocalPartOfMerge(api: seq<Task>, local: seq<Task>)
    ensures LocalPart(MergeTasks(api, local), local) == local
  {
    var rest := Filter(NotShadowed(local), api);
    calc {
      LocalPart(MergeTasks(api, local), local);
      Filter(InStore(local), local + rest);
      { FilterAppend(InStore(local), local, rest); }
      Filter(InStore(local), local) + Filter(InStore(local), rest);
      { LocalSide(local); SurvivorsSide(local, rest); }
      local + [];
    }
  }

  lemma RemotePartOfMerge(api: seq<Task>, local: seq<Task>)
    ensures RemotePart(MergeTasks(api, local), local) == Filter(NotShadowed(local), api)
  {
    var rest := Filter(NotShadowed(local), api);
    calc {
      RemotePart(MergeTasks(api, local), local);
      Filter(NotInStore(local), local + rest);
      { FilterAppend(NotInStore(local), local, rest); }
      Filter(NotInStore(local), local) + Filter(NotInStore(local), rest);
      { LocalSide(local); SurvivorsSide(local, rest); }
      [] + rest;
    }
  }

  lemma LocalSide(local: seq<Task>)
    ensures Filter(InStore(local), local) == local
    ensures Filter(NotInStore(local), local) == []
  {
    forall i | 0 <= i < |local| ensures InStore(local)(local[i]) && !NotInStore(local)(local[i]) {
      assert local[i] in local;
    }
    FilterKeepsAll(InStore(local), local);
    FilterDropsAll(NotInStore(local), local);
  }

  lemma SurvivorsSide(local: seq<Task>, rest: seq<Task>)
    requires forall t :: t in rest ==> !HasId(local, t.id)
    ensures Filter(InStore(local), rest) == []
    ensures Filter(NotInStore(local), rest) == rest
  {
    forall i | 0 <= i < |rest| ensures !InStore(local)(rest[i]) && NotInStore(local)(rest[i]) {
      assert rest[i] in rest;
    }
    FilterKeepsAll(NotInStore(local), rest);
    FilterDropsAll(InStore(local), rest);
  }

  // ---------------------------------------------------------------- drag keys

  /** The sortable item key of a task is `task.id.toString()`. */
  function KeyIs(key: string): Task -> bool {
    (t: Task) => IdToString(t.id) == key
  }

  /** `localTasks.findIndex(task => task.id.toString() === key)`. */
  function KeyIndex(local: seq<Task>, key: string): int {
    FirstIndex(local, KeyIs(key))
  }

  /** Looking a task up by its key is looking it up by its id. */
  lemma KeyIndexById(local: seq<Task>, id: int)
    ensures KeyIndex(local, IdToString(id)) == IndexOf(local, id)
  {
    forall t: Task ensures KeyIs(IdToString(id))(t) == IdIs(id)(t) {
      IdToStringInjective(t.id, id);
    }
    FirstIndexCongruent(local, KeyIs(IdToString(id)), IdIs(id));
  }

  /** The list after a reorder that found both keys, and the store it saves. */
  function Reordered(local: seq<Task>, i: int, j: int): seq<Task>
    requires 0 <= i < |local| && 0 <= j < |local|
  {
    Move(local, i, j)
  }

  /** A reorder that found both keys keeps every task of the list (it is a
      permutation), lands the dragged task at the drop target's former index, keeps
      the other local tasks in their relative order and leaves the remote tasks after
      them in their previous order. */
  lemma ReorderSpec(view: seq<Task>, stored: seq<Task>, i: int, j: int)
    requires 0 <= i < |LocalPart(view, stored)| && 0 <= j < |LocalPart(view, stored)|
    ensures var local := LocalPart(view, stored);
      var moved := Reordered(local, i, j) + RemotePart(view, stored);
      multiset(moved) == multiset(view) &&
      moved[j] == local[i] &&
      RemoveAt(moved[..|local|], j) == RemoveAt(local, i) &&
      moved[|local|..] == RemotePart(view, stored)
  {
    var local := LocalPart(view, stored);
    MoveFacts(local, i, j);
    PartitionPermutes(view, stored);
    var moved := Reordered(local, i, j) + RemotePart(view, stored);
    assert moved[..|local|] == Reordered(local, i, j);
  }

  /** What a reorder saves is exactly the tasks of the hook's `tasks` list whose id the
      store holds, whether the list component shows them or not: a stored task missing
      from `tasks`, or stored in a newer version than the one `tasks` holds, is no
      longer stored afterwards. */
  lemma ReorderSavesListedLocalTasks(view: seq<Task>, stored: seq<Task>, i: int, j: int)
    requires 0 <= i < |LocalPart(view, stored)| && 0 <= j < |LocalPart(view, stored)|
    ensures forall t: Task :: t in Reordered(LocalPart(view, stored), i, j) <==>
      t in view && HasId(stored, t.id)
  {
    var local := LocalPart(view, stored);
    var moved := Reordered(local, i, j);
    MoveFacts(local, i, j);
    forall t: Task ensures t in moved <==> t in view && HasId(stored, t.id) {
      calc {
        t in moved;
        t in multiset(moved);
        t in multiset(local);
        t in local;
      }
    }
  }

  /** Swapping a two-task list by moving its first task onto the second. */
  lemma SwapTwo(x: Task, y: Task)
    ensures Reordered([x, y], 0, 1) == [y, x]
  {
    var s := [x, y];
    assert RemoveAt(s, 0) == [y] by {
      assert s[..0] + s[1..] == [y];
    }
    assert InsertAt([y], 1, x) == [y, x] by {
      assert [y][..1] + [x] + [y][1..] == [y, x];
    }
  }

  /** Two stored tasks, listed in store order (ids `1` and `2`, say): dragging the
      first onto the second swaps them. */
  lemma ReorderTwoLocalTasks(x: Task, y: Task)
    requires x.id != y.id
    ensures var local := LocalPart([x, y], [x, y]);
      local == [x, y] &&
      KeyIndex(local, IdToString(x.id)) == 0 &&
      KeyIndex(local, IdToString(y.id)) == 1 &&
      Reordered(local, 0, 1) == [y, x]
  {
    LocalSide([x, y]);
    KeyIndexById([x, y], x.id);
    KeyIndexById([x, y], y.id);
    SwapTwo(x, y);
  }

  /** After an update whose refetch failed, `tasks` still holds the old record `x`
      while the store holds the updated `x'`; a reorder then saves `x` back and the
      update is lost. */
  lemma ReorderRestoresStaleRecord(x: Task, x': Task, y: Task)
    requires x.id != y.id && x'.id == x.id && x' != x
    ensures var local := LocalPart([x, y], [x', y]);
      local == [x, y] &&
      x in Reordered(local, 0, 1) && x' !in Reordered(local, 0, 1)
  {
    var stored := [x', y];
    assert InStore(stored)(x) by {
      assert stored[0] in stored;
    }
    assert InStore(stored)(y) by {
      assert stored[1] in stored;
    }
    FilterKeepsAll(InStore(stored), [x, y]);
    SwapTwo(x, y);
  }

  // ---------------------------------------------------------------- the filtered view

  datatype FilteredTasks = FilteredTasks(filteredTasks: seq<Task>, totalCount: nat, filteredCount: nat)

  /** `useFilteredTasks`: filter, then sort the filtered tasks; the counts are taken
      before filtering and before sorting. */
  function UseFilteredTasks(tasks: seq<Task>, filters: TaskFilters): (r: FilteredTasks)
    ensures r.totalCount == |tasks|
    ensures r.filteredCount == |r.filteredTasks| <= |tasks|
    ensures multiset(r.filteredTasks) == multiset(FilterTasks(tasks, filters.status, filters.search))
    ensures forall t :: t in r.filteredTasks <==>
      t in tasks && KeepTask(t, filters.status, filters.search)
    ensures SortedBy(filters.sort, r.filteredTasks)
    ensures r.filteredTasks == SortTasks(FilterTasks(tasks, filters.status, filters.search), filters.sort)
  {
    var filtered := FilterTasks(tasks, filters.status, filters.search);
    var sorted := SortTasks(filtered, filters.sort);
    assert forall t :: t in sorted <==> t in tasks && KeepTask(t, filters.status, filters.search) by {
      FilterTasksSpec(tasks, filters.status, filters.search);
      assert forall t :: t in sorted <==> t in multiset(filtered);
    }
    assert SortedBy(filters.sort, sorted) by {
      SortTasksSorted(filtered, filters.sort);
    }
    FilteredTasks(sorted, |tasks|, |filtered|)
  }

  // ---------------------------------------------------------------- the hook

  /** What `error` is set to. */
  datatype BoardError =
    | ReadOnly            // the id is not in the local store
    | FetchFailed         // the remote snapshot could not be fetched

  /** How a mutation ends: it went through, the gate refused it (no throw), or it
      threw after setting `error`. */
  datatype Outcome = Done | Refused | Thrown(error: BoardError)

  class TaskBoard {
    /** The `tasks` state: every task the hook holds, before any display filter. */
    var tasks: seq<Task>
    /** The `error` state. */
    var error: Option<BoardError>
    const store: LocalTaskStore

    constructor (store: LocalTaskStore)
      ensures this.store == store && tasks == [] && error == None
    {
      this.store := store;
      tasks := [];
      error := None;
    }

    /** `isLocalTask`: whether the store's current contents, seed included, hold the
        id; exactly when the store's own lookup by id finds a task. */
    predicate IsLocalTask(id: int, now: int)
      reads this, store
      ensures IsLocalTask(id, now) <==> IndexOf(store.GetTasks(now), id) != -1
    {
      HasId(store.GetTasks(now), id)
    }

    /** `fetchTasks`: the merge of the remote snapshot and the store; when the remote
        fetch fails (`None`), the list is left as it was and the error is set. */
    method FetchTasks(remote: Option<seq<Task>>, now: int)
      modifies this`tasks, this`error
      ensures remote.Some? ==> tasks == MergeTasks(remote.value, store.GetTasks(now)) && error == None
      ensures remote.None? ==> tasks == old(tasks) && error == Some(FetchFailed)
    {
      error := None;
      match remote {
        case Some(api) =>
          var local := store.GetTasks(now);
          tasks := MergeTasks(api, local);
        case None =>
          error := Some(FetchFailed);
      }
    }

    /** `createTask`: the store appends the new task, the list shows it first. */
    method CreateTask(data: CreateTaskData, newId: int, now: int) returns (t: Task)
      modifies this`tasks, this`error, store`stored
      ensures t == NewTask(data, newId, now)
      ensures tasks == [t] + old(tasks) && error == None
      ensures store.stored == old(store.AfterSave(store.GetTasks(now) + [t]))
    {
      error := None;
      t := store.CreateTask(data, newId, now);
      tasks := [t] + tasks;
    }

    /** Sets the list after a store mutation: `mergeTasks(await taskApi.getTasks(),
        localTaskApi.getTasks())`, or the fetch error, thrown. */
    method Refresh(remote: Option<seq<Task>>, now: int) returns (outcome: Outcome)
      modifies this`tasks, this`error
      ensures remote.Some? ==> outcome == Done && tasks == MergeTasks(remote.value, store.GetTasks(now)) && error == old(error)
      ensures remote.None? ==> outcome == Thrown(FetchFailed) && tasks == old(tasks) && error == Some(FetchFailed)
    {
      match remote {
        case Some(api) =>
          tasks := MergeTasks(api, store.GetTasks(now));
          outcome := Done;
        case None =>
          error := Some(FetchFailed);
          outcome := Thrown(FetchFailed);
      }
    }

    /** `updateTask`: refused for a task the store does not hold; otherwise the store
        updates it (its not-found error cannot arise behind the gate) and the list is
        refreshed from the remote snapshot and the store. */
    method UpdateTask(id: int, u: UpdateTaskData, remote: Option<seq<Task>>, now: int) returns (outcome: Outcome)
      modifies this`tasks, this`error, store`stored
      ensures !old(IsLocalTask(id, now)) ==>
        outcome == Refused && error == Some(ReadOnly) &&
        tasks == old(tasks) && store.stored == old(store.stored)
      ensures old(IsLocalTask(id, now)) ==>
        store.stored == old(store.AfterSave(UpdateList(store.GetTasks(now), id, u, now))) &&
        (remote.Some? ==>
          outcome == Done && error == None && tasks == MergeTasks(remote.value, store.GetTasks(now))) &&
        (remote.None? ==>
          outcome == Thrown(FetchFailed) && error == Some(FetchFailed) && tasks == old(tasks))
    {
      if !IsLocalTask(id, now) {
        error := Some(ReadOnly);
        return Refused;
      }
      error := None;
      var r := store.UpdateTask(id, u, now);
      match r {
        case Ok(_) =>
          outcome := Refresh(remote, now);
        case Err(_) =>
          assert false;
      }
    }

    /** `deleteTask`: refused for a task the store does not hold; otherwise the store
        drops it and the list is refreshed. */
    method DeleteTask(id: int, remote: Option<seq<Task>>, now: int) returns (outcome: Outcome)
      modifies this`tasks, this`error, store`stored
      ensures !old(IsLocalTask(id, now)) ==>
        outcome == Refused && error == Some(ReadOnly) &&
        tasks == old(tasks) && store.stored == old(store.stored)
      ensures old(IsLocalTask(id, now)) ==>
        store.stored == old(store.AfterSave(DeleteList(store.GetTasks(now), id))) &&
        (remote.Some? ==>
          outcome == Done && error == None && tasks == MergeTasks(remote.value, store.GetTasks(now))) &&
        (remote.None? ==>
          outcome == Thrown(FetchFailed) && error == Some(FetchFailed) && tasks == old(tasks))
    {
      if !IsLocalTask(id, now) {
        error := Some(ReadOnly);
        return Refused;
      }
      error := None;
      store.DeleteTask(id, now);
      outcome := Refresh(remote, now);
    }

    /** `toggleTaskCompletion`: refused for a task the store does not hold; otherwise
        the store toggles it and the list is refreshed. */
    method ToggleTaskCompletion(id: int, remote: Option<seq<Task>>, now: int) returns (outcome: Outcome)
      modifies this`tasks, this`error, store`stored
      ensures !old(IsLocalTask(id, now)) ==>
        outcome == Refused && error == Some(ReadOnly) &&
        tasks == old(tasks) && store.stored == old(store.stored)
      ensures old(IsLocalTask(id, now)) ==>
        store.stored == old(store.AfterSave(ToggleList(store.GetTasks(now), id, now))) &&
        (remote.Some? ==>
          outcome == Done && error == None && tasks == MergeTasks(remote.value, store.GetTasks(now))) &&
        (remote.None? ==>
          outcome == Thrown(FetchFailed) && error == Some(FetchFailed) && tasks == old(tasks))
    {
      if !IsLocalTask(id, now) {
        error := Some(ReadOnly);
        return Refused;
      }
      error := None;
      var r := store.ToggleTaskCompletion(id, now);
      match r {
        case Ok(_) =>
          outcome := Refresh(remote, now);
        case Err(_) =>
          assert false;
      }
    }

    /** `reorderTasks`: the dragged local task is moved onto the drop target's index
        within the local partition, that partition is saved, and the remote partition
        follows it unchanged. If either key is not a local task nothing happens. */
    method ReorderTasks(activeId: string, overId: string, now: int)
      modifies this`tasks, store`stored
      ensures var local := LocalPart(old(tasks), old(store.GetTasks(now)));
        var i, j := KeyIndex(local, activeId), KeyIndex(local, overId);
        (i == -1 || j == -1 ==> tasks == old(tasks) && store.stored == old(store.stored)) &&
        (i != -1 && j != -1 ==>
          tasks == Reordered(local, i, j) + RemotePart(old(tasks), old(store.GetTasks(now))) &&
          store.stored == old(store.AfterSave(Reordered(local, i, j))))
    {
      var stored := store.GetTasks(now);
      var localTasks := Filter(InStore(stored), tasks);
      var apiTasks := Filter(NotInStore(stored), tasks);
      var oldIndex := FirstIndex(localTasks, KeyIs(activeId));
      var newIndex := FirstIndex(localTasks, KeyIs(overId));
      if oldIndex == -1 || newIndex == -1 {
        return;
      }
      var removed := localTasks[oldIndex];
      var result := RemoveAt(localTasks, oldIndex);
      result := InsertAt(result, newIndex, removed);
      store.SaveTasks(result);
      tasks := result + apiTasks;
    }
  }
}
