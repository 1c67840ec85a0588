/** The records of the task manager: tasks, categories, the partial updates spread
    over them, and the filter settings of the list view. */
module Types {
  import opened Basics

  /** A task. `createdAt` and `updatedAt` are instants in milliseconds since the
      epoch, standing for the ISO strings the source stores; `None` is a missing one. */
  datatype Task = Task(
    id: int,
    todo: string,
    completed: bool,
    userId: int,
    categoryId: Option<string>,
    createdAt: Option<int>,
    updatedAt: Option<int>)

  /** The argument of task creation: only `todo` is mandatory. */
  datatype CreateTaskData = CreateTaskData(
    todo: string,
    completed: Option<bool>,
    userId: Option<int>,
    categoryId: Option<string>)

  /** A partial task: each field is absent or present. A present `categoryId` may
      hold `undefined` (`Put(None)`), which clears a task's category. */
  datatype UpdateTaskData = UpdateTaskData(
    todo: Field<string>,
    completed: Field<bool>,
    categoryId: Field<Option<string>>)

  datatype Category = Category(id: string, name: string, color: string, createdAt: int)

  /** `Partial<Category>`: any field, the id included, may be overwritten. */
  datatype CategoryUpdate = CategoryUpdate(
    id: Field<string>,
    name: Field<string>,
    color: Field<string>,
    createdAt: Field<int>)

  datatype FilterStatus = All | Active | Completed

  datatype SortOption = Created | Title | Status

  datatype TaskFilters = TaskFilters(status: FilterStatus, search: string, sort: SortOption)

  /** `{ ...t, ...u }`. */
  function OverlayTask(t: Task, u: UpdateTaskData): Task {
    t.(todo := u.todo.Or(t.todo),
       completed := u.completed.Or(t.completed),
       categoryId := u.categoryId.Or(t.categoryId))
  }

  /** `{ ...c, ...u }`. */
  function OverlayCategory(c: Category, u: CategoryUpdate): Category {
    Category(u.id.Or(c.id), u.name.Or(c.name), u.color.Or(c.color), u.createdAt.Or(c.createdAt))
  }

  /** `cat => cat.id === id`. */
  function CategoryIdIs(id: string): Category -> bool {
    (c: Category) => c.id == id
  }

  /** `ts.some(t => t.id === id)`. */
  predicate HasId(ts: seq<Task>, id: int) {
    exists t :: t in ts && t.id == id
  }

  predicate UniqueIds(ts: seq<Task>) {
    forall i, j :: 0 <= i < j < |ts| ==> ts[i].id != ts[j].id
  }

  predicate UniqueCategoryIds(cs: seq<Category>) {
    forall i, j :: 0 <= i < j < |cs| ==> cs[i].id != cs[j].id
  }
}
