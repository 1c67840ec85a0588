/** The pure view stage of the list: status and search filtering, the three sort
    orders, and category lookup by id. */
module Helpers {
  import opened Basics
  import opened Seqs
  import opened Text
  import opened Types

  // ---------------------------------------------------------------- filtering

  predicate IsOpen(t: Task) { !t.completed }

  predicate IsDone(t: Task) { t.completed }

  /** The search test for one task: its lower-cased text contains the lower-cased
      (untrimmed) search string. */
  function SearchMatch(search: string): Task -> bool {
    (t: Task) => Contains(Lower(t.todo), Lower(search))
  }

  predicate MatchesStatus(t: Task, status: FilterStatus) {
    match status
    case All => true
    case Active => !t.completed
    case Completed => t.completed
  }

  /** Whether `filterTasks` keeps `t`: its status matches, and either the search is
      blank after trimming or its text contains it. */
  predicate KeepTask(t: Task, status: FilterStatus, search: string) {
    MatchesStatus(t, status) && (IsBlank(search) || Contains(Lower(t.todo), Lower(search)))
  }

  function KeepBy(status: FilterStatus, search: string): Task -> bool {
    (t: Task) => KeepTask(t, status, search)
  }

  /** `filterTasks`: the status filter, then the search filter when `search.trim()`
      is non-empty. */
  function FilterTasks(tasks: seq<Task>, status: FilterStatus, search: string): (r: seq<Task>)
    ensures |r| <= |tasks|
    ensures forall t :: t in r ==> t in tasks && MatchesStatus(t, status)
    ensures status == All && Trim(search) == [] ==> r == tasks
  {
    var byStatus :=
      match status
      case All => tasks
      case Active => Filter(IsOpen, tasks)
      case Completed => Filter(IsDone, tasks);
    if Trim(search) != [] then Filter(SearchMatch(search), byStatus) else byStatus
  }

  /** The two chained filters are one filter by `KeepTask`; so the result is the
      subsequence of the input made of exactly the tasks `KeepTask` accepts. */
  lemma FilterTasksSpec(tasks: seq<Task>, status: FilterStatus, search: string)
    ensures FilterTasks(tasks, status, search) == Filter(KeepBy(status, search), tasks)
    ensures IsSubsequence(FilterTasks(tasks, status, search), tasks)
    ensures forall t :: t in FilterTasks(tasks, status, search) <==>
      t in tasks && MatchesStatus(t, status) && (IsBlank(search) || Contains(Lower(t.todo), Lower(search)))
  {
    TrimEmptyIffBlank(search);
    var keep := KeepBy(status, search);
    var searching := !IsBlank(search);
    match status {
      case All =>
        if searching {
          FilterCongruent(SearchMatch(search), keep, tasks);
        } else {
          FilterKeepsAll(keep, tasks);
        }
      case Active =>
        if searching {
          FilterFilter(IsOpen, SearchMatch(search), keep, tasks);
        } else {
          FilterCongruent(IsOpen, keep, tasks);
        }
      case Completed =>
        if searching {
          FilterFilter(IsDone, SearchMatch(search), keep, tasks);
        } else {
          FilterCongruent(IsDone, keep, tasks);
        }
    }
    FilterIsSubsequence(keep, tasks);
  }

  // ---------------------------------------------------------------- sorting

  /** `Number(t.completed)`. */
  function Rank(t: Task): int { if t.completed then 1 else 0 }

  /** `new Date(t.createdAt || 0).getTime()`. */
  function CreatedTime(t: Task): int {
    match t.createdAt
    case None => 0
    case Some(ms) => ms
  }

  /** The comparator of `sortTasks` answers `<= 0` for `(a, b)`: `a` may stay in
      front of `b`. */
  predicate Before(sort: SortOption, a: Task, b: Task)
    ensures a == b ==> Before(sort, a, b)
    ensures sort == Status ==> (Before(sort, a, b) <==> !a.completed || b.completed)
    ensures sort == Created ==> (Before(sort, a, b) <==> CreatedTime(a) >= CreatedTime(b))
  {
    match sort
    case Title => StrLeqReflexive(a.todo); StrLeq(a.todo, b.todo)
    case Status => Rank(a) <= Rank(b)
    case Created => CreatedTime(b) <= CreatedTime(a)
  }

  lemma BeforeTotal(sort: SortOption, a: Task, b: Task)
    ensures Before(sort, a, b) || Before(sort, b, a)
  {
    if sort == Title {
      StrLeqTotal(a.todo, b.todo);
    }
  }

  lemma BeforeTransitive(sort: SortOption, a: Task, b: Task, c: Task)
    requires Before(sort, a, b) && Before(sort, b, c)
    ensures Before(sort, a, c)
  {
    if sort == Title {
      StrLeqTransitive(a.todo, b.todo, c.todo);
    }
  }

  ghost predicate SortedBy(sort: SortOption, s: seq<Task>) {
    forall i, j :: 0 <= i < j < |s| ==> Before(sort, s[i], s[j])
  }

  /** Puts `x` in front of the first element it may precede. */
  function Insert(sort: SortOption, x: Task, s: seq<Task>): (r: seq<Task>)
    ensures |r| == |s| + 1
  {
    if s == [] then [x]
    else if Before(sort, x, s[0]) then [x] + s
    else [s[0]] + Insert(sort, x, s[1..])
  }

  /** An insertion adds exactly `x` to the multiset of elements. */
  lemma {:induction false} InsertCounts(sort: SortOption, x: Task, s: seq<Task>)
    ensures multiset(Insert(sort, x, s)) == multiset(s) + multiset{x}
  {
    if s != [] && !Before(sort, x, s[0]) {
      InsertCounts(sort, x, s[1..]);
      assert s == [s[0]] + s[1..];
    }
  }

  /** `sortTasks`: a stable sort of a fresh copy under the comparator of `sort`
      (stable sorting is what `Array.prototype.sort` guarantees, and a stable
      sort's result is determined by the comparator alone). */
  function SortTasks(tasks: seq<Task>, sort: SortOption): (r: seq<Task>)
    ensures multiset(r) == multiset(tasks)
    ensures |r| == |tasks|
  {
    if tasks == [] then []
    else
      assert tasks == [tasks[0]] + tasks[1..];
      InsertCounts(sort, tasks[0], SortTasks(tasks[1..], sort));
      Insert(sort, tasks[0], SortTasks(tasks[1..], sort))
  }

  lemma {:induction false} InsertSorted(sort: SortOption, x: Task, s: seq<Task>)
    requires SortedBy(sort, s)
    ensures SortedBy(sort, Insert(sort, x, s))
  {
    if s == [] {
    } else if Before(sort, x, s[0]) {
      forall j | 0 < j < |s| ensures Before(sort, x, s[j]) {
        BeforeTransitive(sort, x, s[0], s[j]);
      }
    } else {
      BeforeTotal(sort, x, s[0]);
      InsertSorted(sort, x, s[1..]);
      var tail := Insert(sort, x, s[1..]);
      InsertCounts(sort, x, s[1..]);
      forall j | 0 <= j < |tail| ensures Before(sort, s[0], tail[j]) {
        assert tail[j] in multiset(tail);
        assert tail[j] == x || tail[j] in s[1..];
      }
      assert Insert(sort, x, s) == [s[0]] + tail;
      SortedCons(sort, s[0], tail);
    }
  }

  lemma SortedCons(sort: SortOption, h: Task, t: seq<Task>)
    requires SortedBy(sort, t)
    requires forall j :: 0 <= j < |t| ==> Before(sort, h, t[j])
    ensures SortedBy(sort, [h] + t)
  {
    var r := [h] + t;
    forall i, j | 0 <= i < j < |r| ensures Before(sort, r[i], r[j]) {
      assert r[j] == t[j - 1];
      if i > 0 {
        assert r[i] == t[i - 1];
      }
    }
  }

  /** Every sort order is honoured: no pair of the result is out of order. */
  lemma {:induction false} SortTasksSorted(tasks: seq<Task>, sort: SortOption)
    ensures SortedBy(sort, SortTasks(tasks, sort))
  {
    if tasks != [] {
      SortTasksSorted(tasks[1..], sort);
      InsertSorted(sort, tasks[0], SortTasks(tasks[1..], sort));
    }
  }

  /** The `'created'` order (also the default): newest first, a missing creation
      time counting as the epoch. */
  lemma SortByCreatedNewestFirst(tasks: seq<Task>)
    ensures forall i, j :: 0 <= i < j < |tasks| ==>
      CreatedTime(SortTasks(tasks, Created)[i]) >= CreatedTime(SortTasks(tasks, Created)[j])
  {
    SortTasksSorted(tasks, Created);
  }

  /** The `'title'` order: ascending task text. */
  lemma SortByTitleAscending(tasks: seq<Task>)
    ensures forall i, j :: 0 <= i < j < |tasks| ==>
      StrLeq(SortTasks(tasks, Title)[i].todo, SortTasks(tasks, Title)[j].todo)
  {
    SortTasksSorted(tasks, Title);
  }

  /** A task inserted into completed tasks under the status order goes first. */
  lemma InsertBeforeDone(x: Task, done: seq<Task>)
    requires forall i :: 0 <= i < |done| ==> done[i].completed
    ensures Insert(Status, x, done) == [x] + done
  {
    if done != [] {
      assert Before(Status, x, done[0]);
    }
  }

  lemma {:induction false} InsertByStatus(x: Task, open: seq<Task>, done: seq<Task>)
    requires forall i :: 0 <= i < |open| ==> !open[i].completed
    requires forall i :: 0 <= i < |done| ==> done[i].completed
    ensures Insert(Status, x, open + done) ==
      if x.completed then open + [x] + done else [x] + open + done
  {
    if open == [] {
      calc {
        Insert(Status, x, open + done);
        { assert open + done == done; }
        Insert(Status, x, done);
        { InsertBeforeDone(x, done); }
        [x] + done;
        { assert open + [x] + done == [x] + done == [x] + open + done; }
        if x.completed then open + [x] + done else [x] + open + done;
      }
    } else if !x.completed {
      InsertBeforeOpen(x, open, done);
    } else {
      calc {
        Insert(Status, x, open + done);
        { InsertPastOpen(x, open, done); }
        [open[0]] + Insert(Status, x, open[1..] + done);
        { assert forall i :: 0 <= i < |open[1..]| ==> !open[1..][i].completed;
          InsertByStatus(x, open[1..], done); }
        [open[0]] + (open[1..] + [x] + done);
        { assert open == [open[0]] + open[1..]; }
        open + [x] + done;
      }
    }
  }

  /** An incomplete task is inserted in front of an incomplete one. */
  lemma InsertBeforeOpen(x: Task, open: seq<Task>, done: seq<Task>)
    requires !x.completed && open != []
    ensures Insert(Status, x, open + done) == [x] + open + done
  {
    assert (open + done)[0] == open[0];
    assert [x] + (open + done) == [x] + open + done;
  }

  /** A completed task is inserted past the first incomplete one. */
  lemma InsertPastOpen(x: Task, open: seq<Task>, done: seq<Task>)
    requires x.completed && open != [] && !open[0].completed
    ensures Insert(Status, x, open + done) == [open[0]] + Insert(Status, x, open[1..] + done)
  {
    assert (open + done)[0] == open[0];
    assert (open + done)[1..] == open[1..] + done;
  }

  lemma FilterOpenAllOpen(s: seq<Task>)
    ensures forall i :: 0 <= i < |Filter(IsOpen, s)| ==> !Filter(IsOpen, s)[i].completed
  {
    var r := Filter(IsOpen, s);
    forall i | 0 <= i < |r| ensures !r[i].completed {
      assert r[i] in r;
    }
  }

  lemma FilterDoneAllDone(s: seq<Task>)
    ensures forall i :: 0 <= i < |Filter(IsDone, s)| ==> Filter(IsDone, s)[i].completed
  {
    var r := Filter(IsDone, s);
    forall i | 0 <= i < |r| ensures r[i].completed {
      assert r[i] in r;
    }
  }

  /** The two status partitions of a non-empty sequence, by its head. */
  lemma PartitionsCons(s: seq<Task>)
    requires s != []
    ensures Filter(IsOpen, s) + Filter(IsDone, s) ==
      if s[0].completed then Filter(IsOpen, s[1..]) + [s[0]] + Filter(IsDone, s[1..])
      else [s[0]] + Filter(IsOpen, s[1..]) + Filter(IsDone, s[1..])
  {
    var open, done := Filter(IsOpen, s[1..]), Filter(IsDone, s[1..]);
    var a, b := Filter(IsOpen, s), Filter(IsDone, s);
    if s[0].completed {
      assert a == open by { FilterCons(IsOpen, s); }
      assert b == [s[0]] + done by { FilterCons(IsDone, s); }
      assert a + b == open + [s[0]] + done;
    } else {
      assert a == [s[0]] + open by { FilterCons(IsOpen, s); }
      assert b == done by { FilterCons(IsDone, s); }
      assert a + b == [s[0]] + open + done;
    }
  }

  /** The `'status'` order: the incomplete tasks in input order, then the completed
      tasks in input order. */
  lemma {:induction false} SortByStatusPartitions(tasks: seq<Task>)
    ensures SortTasks(tasks, Status) == Filter(IsOpen, tasks) + Filter(IsDone, tasks)
  {
    if tasks != [] {
      var h, t := tasks[0], tasks[1..];
      var open, done := Filter(IsOpen, t), Filter(IsDone, t);
      var mid := if h.completed then open + [h] + done else [h] + open + done;
      assert SortTasks(tasks, Status) == mid by {
        SortByStatusPartitions(t);
        FilterOpenAllOpen(t);
        FilterDoneAllDone(t);
        InsertByStatus(h, open, done);
      }
      assert Filter(IsOpen, tasks) + Filter(IsDone, tasks) == mid by {
        PartitionsCons(tasks);
      }
    }
  }

  // ---------------------------------------------------------------- categories

  /** `categories.find(cat => cat.id === id)`. */
  function FindCategory(cs: seq<Category>, id: string): (r: Option<Category>)
    ensures r == None <==> forall k :: 0 <= k < |cs| ==> cs[k].id != id
    ensures r.Some? ==>
      r.value.id == id &&
      exists k :: 0 <= k < |cs| && cs[k] == r.value && forall j :: 0 <= j < k ==> cs[j].id != id
  {
    var k := FirstIndex(cs, CategoryIdIs(id));
    if k == -1 then None else Some(cs[k])
  }

  /** `getCategoryById`: no lookup for a missing or empty id, otherwise the first
      category with that id. */
  function GetCategoryById(cs: seq<Category>, id: Option<string>): (r: Option<Category>)
    ensures id == None || id == Some("") ==> r == None
    ensures r.Some? ==> r.value in cs && Some(r.value.id) == id
    ensures id.Some? && id.value != "" && (exists c :: c in cs && c.id == id.value) ==> r.Some?
    ensures id.Some? && id.value != "" ==> r == FindCategory(cs, id.value)
  {
    if id == None || id.value == "" then None else FindCategory(cs, id.value)
  }
}
