/** The local task store: one persisted array of tasks under the key
    `task-manager-tasks`, read, edited as a copy and written back whole by every
    operation. Clock readings and fresh ids are parameters. */
module LocalTaskApi {
  import opened Basics
  import opened Seqs
  import opened Types

  /** The error `updateTask` and `toggleTaskCompletion` throw:
      "Task with id <id> not found". */
  datatype StoreError = NotFound(id: int)

  // ---------------------------------------------------------------- the list edits

  /** The three sample tasks shown when nothing is stored yet, all created `now`. */
  function SeedTasks(now: int): (r: seq<Task>)
    ensures |r| == 3 && UniqueIds(r)
    ensures forall i :: 0 <= i < 3 ==>
      r[i].id == i + 1 && (r[i].completed <==> i == 2) && r[i].userId == 1 &&
      r[i].categoryId == None && r[i].createdAt == Some(now) && r[i].updatedAt == None
  {
    [Task(1, "Welcome to your task manager!", false, 1, None, Some(now), None),
     Task(2, "Click the edit button to modify this task", false, 1, None, Some(now), None),
     Task(3, "Click the delete button to remove this task", true, 1, None, Some(now), None)]
  }

  function IdIs(id: int): Task -> bool {
    (t: Task) => t.id == id
  }

  /** `tasks.findIndex(t => t.id === id)`. */
  function IndexOf(ts: seq<Task>, id: int): (i: int)
    ensures -1 <= i < |ts|
    ensures i == -1 <==> !HasId(ts, id)
    ensures 0 <= i ==> ts[i].id == id && forall k :: 0 <= k < i ==> ts[k].id != id
  {
    var i := FirstIndex(ts, IdIs(id));
    assert 0 <= i ==> ts[i] in ts;
    assert i == -1 ==> forall t :: t in ts ==> t.id != id by {
      if i == -1 {
        forall t | t in ts ensures t.id != id {
          var k :| 0 <= k < |ts| && ts[k] == t;
        }
      }
    }
    i
  }

  /** The record `createTask` builds: `completed` and `userId` fall back through `||`,
      so `false` and `0` are replaced by the defaults as well as a missing value. */
  function NewTask(data: CreateTaskData, id: int, now: int): (t: Task)
    ensures t.completed <==> data.completed == Some(true)
    ensures t.userId != 0
    ensures t.userId == 1 <==> data.userId == None || data.userId == Some(0) || data.userId == Some(1)
    ensures data.userId.Some? && data.userId.value != 0 ==> t.userId == data.userId.value
    ensures t.id == id && t.todo == data.todo && t.categoryId == data.categoryId
    ensures t.createdAt == Some(now) && t.updatedAt == None
  {
    Task(
      id,
      data.todo,
      data.completed == Some(true),
      match data.userId { case Some(u) => if u != 0 then u else 1 case None => 1 },
      data.categoryId,
      Some(now),
      None)
  }

  /** `{ ...t, ...updates, updatedAt: now }`. */
  function UpdatedTask(t: Task, u: UpdateTaskData, now: int): Task {
    OverlayTask(t, u).(updatedAt := Some(now))
  }

  /** `{ ...t, completed: !t.completed, updatedAt: now }`. */
  function ToggledTask(t: Task, now: int): Task {
    t.(completed := !t.completed, updatedAt := Some(now))
  }

  /** The list `updateTask` saves: the first task with that id overlaid. */
  function UpdateList(ts: seq<Task>, id: int, u: UpdateTaskData, now: int): seq<Task> {
    var i := IndexOf(ts, id);
    if i == -1 then ts else ts[i := UpdatedTask(ts[i], u, now)]
  }

  /** The list `toggleTaskCompletion` saves: the first task with that id toggled. */
  function ToggleList(ts: seq<Task>, id: int, now: int): (r: seq<Task>)
    ensures |r| == |ts|
    ensures forall k :: 0 <= k < |ts| ==> r[k].id == ts[k].id
    ensures forall k :: 0 <= k < |ts| && k != IndexOf(ts, id) ==> r[k] == ts[k]
    ensures IndexOf(ts, id) != -1 ==>
      r[IndexOf(ts, id)] ==
        ts[IndexOf(ts, id)].(completed := !ts[IndexOf(ts, id)].completed, updatedAt := Some(now))
    ensures !HasId(ts, id) ==> r == ts
  {
    var i := IndexOf(ts, id);
    if i == -1 then ts else ts[i := ToggledTask(ts[i], now)]
  }

  function NotId(id: int): Task -> bool {
    (t: Task) => t.id != id
  }

  /** The list `deleteTask` saves. */
  function DeleteList(ts: seq<Task>, id: int): seq<Task> {
    Filter(NotId(id), ts)
  }

  /** The list `reorderTasks` saves: `splice(start, 1)` then `splice(end, 0, removed)`,
      each index read the way `splice` reads it (so a `start` below `-|ts|` takes the
      first task). */
  function ReorderList(ts: seq<Task>, start: int, end: int): seq<Task>
    requires 0 < |ts| && start < |ts|
  {
    Move(ts, SpliceIndex(start, |ts|), SpliceIndex(end, |ts| - 1))
  }

  // ---------------------------------------------------------------- their properties

  /** An update replaces exactly the first task with that id (the same edit as the
      reference `ReplaceFirst`), and keeps every id in place. */
  lemma UpdateListSpec(ts: seq<Task>, id: int, u: UpdateTaskData, now: int)
    ensures UpdateList(ts, id, u, now) ==
      ReplaceFirst(ts, (t: Task) => t.id == id, (t: Task) => UpdatedTask(t, u, now))
    ensures |UpdateList(ts, id, u, now)| == |ts|
    ensures forall k :: 0 <= k < |ts| ==> UpdateList(ts, id, u, now)[k].id == ts[k].id
    ensures !HasId(ts, id) ==> UpdateList(ts, id, u, now) == ts
  {
    ReplaceFirstAt(ts, (t: Task) => t.id == id, (t: Task) => UpdatedTask(t, u, now));
  }

  /** Repeating the same update at the same instant changes nothing more. */
  lemma UpdateIdempotent(ts: seq<Task>, id: int, u: UpdateTaskData, now: int)
    ensures UpdateList(UpdateList(ts, id, u, now), id, u, now) == UpdateList(ts, id, u, now)
  {
    var once := UpdateList(ts, id, u, now);
    var i := IndexOf(ts, id);
    if i != -1 {
      assert IndexOf(once, id) == i by {
        assert forall k :: 0 <= k < |ts| ==> once[k].id == ts[k].id;
      }
    }
  }

  /** Toggling twice gives back every task as it was, apart from the `updatedAt`
      stamp of the toggled one; in particular `completed` is restored. */
  lemma ToggleTwice(ts: seq<Task>, id: int, now1: int, now2: int)
    ensures var i := IndexOf(ts, id);
      ToggleList(ToggleList(ts, id, now1), id, now2) ==
      if i == -1 then ts else ts[i := ts[i].(updatedAt := Some(now2))]
    ensures forall k :: 0 <= k < |ts| ==>
      ToggleList(ToggleList(ts, id, now1), id, now2)[k].completed == ts[k].completed
  {
    var once := ToggleList(ts, id, now1);
    var i := IndexOf(ts, id);
    if i != -1 {
      assert IndexOf(once, id) == i by {
        assert forall k :: 0 <= k < |ts| ==> once[k].id == ts[k].id;
      }
    }
  }

  /** A delete removes every task with that id and keeps all the others, in order;
      deleting an absent id changes nothing. */
  lemma DeleteListSpec(ts: seq<Task>, id: int)
    ensures !HasId(DeleteList(ts, id), id)
    ensures forall t: Task :: t in DeleteList(ts, id) <==> t in ts && t.id != id
    ensures forall t: Task :: t.id != id ==> multiset(DeleteList(ts, id))[t] == multiset(ts)[t]
    ensures IsSubsequence(DeleteList(ts, id), ts)
    ensures !HasId(ts, id) ==> DeleteList(ts, id) == ts
  {
    FilterIsSubsequence(NotId(id), ts);
    FilterCounts(NotId(id), ts);
    if !HasId(ts, id) {
      assert forall i :: 0 <= i < |ts| ==> ts[i] in ts;
      FilterKeepsAll(NotId(id), ts);
    }
  }

  /** Creating a task under a fresh id and then deleting that id restores the list. */
  lemma CreateThenDelete(ts: seq<Task>, data: CreateTaskData, id: int, now: int)
    requires !HasId(ts, id)
    ensures DeleteList(ts + [NewTask(data, id, now)], id) == ts
  {
    FilterAppend(NotId(id), ts, [NewTask(data, id, now)]);
    DeleteListSpec(ts, id);
    assert Filter(NotId(id), [NewTask(data, id, now)]) == [];
  }

  /** A reorder is a permutation that puts the element from `start` at `end` and keeps
      the relative order of all the other tasks. */
  lemma ReorderListSpec(ts: seq<Task>, start: int, end: int)
    requires 0 < |ts| && start < |ts|
    ensures var s, e := SpliceIndex(start, |ts|), SpliceIndex(end, |ts| - 1);
      |ReorderList(ts, start, end)| == |ts| &&
      multiset(ReorderList(ts, start, end)) == multiset(ts) &&
      ReorderList(ts, start, end)[e] == ts[s] &&
      RemoveAt(ReorderList(ts, start, end), e) == RemoveAt(ts, s)
    ensures 0 <= start && 0 <= end < |ts| ==> ReorderList(ts, start, end)[end] == ts[start]
    ensures start < -|ts| ==> ReorderList(ts, start, end)[SpliceIndex(end, |ts| - 1)] == ts[0]
  {
    MoveFacts(ts, SpliceIndex(start, |ts|), SpliceIndex(end, |ts| - 1));
  }

  // ---------------------------------------------------------------- the store

  class LocalTaskStore {
    /** The persisted array. */
    var stored: Slot<seq<Task>>
    /** Whether `localStorage.setItem` throws (quota, private mode): the error is
        logged and swallowed, so the write is lost. */
    var writesFail: bool

    constructor (stored: Slot<seq<Task>>, writesFail: bool)
      ensures this.stored == stored && this.writesFail == writesFail
    {
      this.stored := stored;
      this.writesFail := writesFail;
    }

    /** `getTasks`: the stored array, the seed when nothing is stored, and `[]` when
        the stored value cannot be read. It writes nothing. */
    function GetTasks(now: int): (r: seq<Task>)
      reads this
      ensures stored.Empty? ==> r == SeedTasks(now)
      ensures stored.Unreadable? ==> r == []
      ensures stored.Holds? ==> r == stored.value
    {
      match stored
      case Empty => SeedTasks(now)
      case Unreadable => []
      case Holds(ts) => ts
    }

    /** The key's content after `saveTasks(tasks)`. */
    function AfterSave(tasks: seq<Task>): Slot<seq<Task>>
      reads this
    {
      if writesFail then stored else Holds(tasks)
    }

    /** `saveTasks`: a later read gives back what was saved, unless the write failed. */
    method SaveTasks(tasks: seq<Task>)
      modifies this`stored
      ensures stored == old(AfterSave(tasks))
      ensures !writesFail ==> forall now :: GetTasks(now) == tasks
    {
      if !writesFail {
        stored := Holds(tasks);
      }
    }

    /** `createTask`: the new task is appended to the current list and returned. */
    method CreateTask(data: CreateTaskData, newId: int, now: int) returns (t: Task)
      modifies this`stored
      ensures t == NewTask(data, newId, now)
      ensures stored == old(AfterSave(GetTasks(now) + [t]))
    {
      var tasks := GetTasks(now);
      t := NewTask(data, newId, now);
      SaveTasks(tasks + [t]);
    }

    /** `updateTask`: the first task with the id is overlaid and saved; an absent id
        throws and writes nothing. */
    method UpdateTask(id: int, u: UpdateTaskData, now: int) returns (r: Result<Task, StoreError>)
      modifies this`stored
      ensures var before := old(GetTasks(now));
        var i := IndexOf(before, id);
        (i == -1 ==> r == Err(NotFound(id)) && stored == old(stored)) &&
        (i != -1 ==>
          r == Ok(UpdatedTask(before[i], u, now)) &&
          stored == old(AfterSave(UpdateList(before, id, u, now))))
    {
      var tasks := GetTasks(now);
      var index := IndexOf(tasks, id);
      if index != -1 {
        var updated := UpdatedTask(tasks[index], u, now);
        var copy := tasks[index := updated];
        SaveTasks(copy);
        return Ok(updated);
      }
      return Err(NotFound(id));
    }

    /** `deleteTask`: every task with the id is dropped; the list is saved even when
        nothing matched. */
    method DeleteTask(id: int, now: int)
      modifies this`stored
      ensures stored == old(AfterSave(DeleteList(GetTasks(now), id)))
    {
      var tasks := GetTasks(now);
      var filtered := Filter(NotId(id), tasks);
      SaveTasks(filtered);
    }

    /** `toggleTaskCompletion`: the first task with the id is toggled and saved; an
        absent id throws and writes nothing. */
    method ToggleTaskCompletion(id: int, now: int) returns (r: Result<Task, StoreError>)
      modifies this`stored
      ensures var before := old(GetTasks(now));
        var i := IndexOf(before, id);
        (i == -1 ==> r == Err(NotFound(id)) && stored == old(stored)) &&
        (i != -1 ==>
          r == Ok(ToggledTask(before[i], now)) &&
          stored == old(AfterSave(ToggleList(before, id, now))))
    {
      var tasks := GetTasks(now);
      var index := IndexOf(tasks, id);
      if index != -1 {
        var updated := ToggledTask(tasks[index], now);
        var copy := tasks[index := updated];
        SaveTasks(copy);
        return Ok(updated);
      }
      return Err(NotFound(id));
    }

    /** `reorderTasks(start, end)`: one task moved, the result saved. */
    method ReorderTasks(start: int, end: int, now: int)
      requires 0 < |GetTasks(now)| && start < |GetTasks(now)|
      modifies this`stored
      ensures stored == old(AfterSave(ReorderList(GetTasks(now), start, end)))
    {
      var tasks := GetTasks(now);
      var n := |tasks|;
      var from := SpliceIndex(start, n);
      var rest := RemoveAt(tasks, from);
      var result := InsertAt(rest, SpliceIndex(end, n - 1), tasks[from]);
      SaveTasks(result);
    }
  }
}
