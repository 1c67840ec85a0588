# Personal Task Manager: remote and local tasks reconciled, in Dafny

This project models the logic of a React to-do application. The application shows
two kinds of tasks in one list:

- read-only tasks fetched from a remote service;
- editable tasks kept in the browser's `localStorage`.

The model covers the following parts:

- **Local task store** (`localTaskApi`, module `LocalTaskApi`). One persisted array is
  read, edited as a copy and written back whole. Reading an empty key gives a three-task
  seed list. A read error gives `[]`. A failed write is swallowed.
- **Reconciliation hook** (`useTasks`, module `UseTasks`). `mergeTasks` shows local
  tasks first and drops remote tasks shadowed by a local id. Update, delete and toggle
  are refused for ids the store does not hold. `createTask` prepends to the hook's `tasks`
  list. `reorderTasks` moves one task within the local partition, saves that
  partition and appends the remote partition. `useFilteredTasks` filters, then sorts.
- **View stage** (`helpers`, module `Helpers`). The status and search filters, the three
  sort orders (a stable sort under each comparator), and `getCategoryById`.
- **List component** (`TaskList`, module `TaskList`). The display filter, which does not
  trim the search string, and the guard of `handleDragEnd`.
- **Category store** (`storage`, module `Storage`, and `CategoryContext`, module
  `CategoryContext`). Append, update, delete and find over a category list saved whole.
  The storage service updates the first match only and writes nothing when no category
  matches. The provider updates every match and always saves. `getTheme`/`saveTheme` are
  modelled too.

Each part that changes state is a class:

- `LocalTaskStore` and `StorageService` hold one field per storage key.
- `TaskBoard` holds the `tasks` and `error` state.
- `CategoryProvider` holds the `categories` state.

Their methods state the new state in terms of pure functions (`UpdateList`,
`DeleteList`, `MergeTasks`, `UpdateEveryCategory`, ...). The lemmas prove the
properties of those functions.

How the model reads the source:

- A storage key is a `Slot`: `Empty` (nothing stored), `Unreadable` (the read or
  `JSON.parse` throws) or `Holds(value)`. Each store has a `writesFail` flag. When it is
  set, `setItem` throws, the error is swallowed and the write is lost.
- JSON encoding and decoding are taken as identity.
- Clock readings (`Date.now()`, `new Date().toISOString()`) and fresh ids are the
  parameters `now` and `newId`. Timestamps are milliseconds, `Option<int>`.
- The remote snapshot is a parameter `Option<seq<Task>>`. `None` means the fetch was
  rejected.
- A spread `{ ...old, ...updates }` is modelled with `Field<T> = Keep | Put(v)`. A task
  update can carry `categoryId: undefined`, so its category field is
  `Field<Option<string>>`. That case clears its category.
- `x || default` is written out. `completed` becomes true only when `true` is passed.
  `userId` becomes 1 when it is missing or `0`.
- `Array.prototype.sort` is stable. `SortTasks` is a stable insertion sort under the
  predicate "the comparator returns `<= 0`".
- `toLowerCase` is ASCII lower-casing.
- `trim` strips the ECMAScript white-space and line-terminator characters.
- `localeCompare` is code-point lexicographic order. It is proved total and transitive.
- `Number.prototype.toString` on an id is its decimal form. It is proved injective, so
  matching drag keys matches ids.

Four consequences of the code are easy to miss:

- `updateTask`, `deleteTask` and `toggleTaskCompletion` change the store first, then
  refetch the remote list. If that refetch fails, the store keeps the change. The hook's
  `tasks` list stays as it was, `error` is set and the call throws. Nothing rolls the
  store back. The `TaskBoard` methods state this outcome.
- The store's `reorderTasks` does not take a new order. It moves one element by index
  with two `splice` calls, and each index is read the way `splice` reads it. That move is
  `ReorderList`.
- The hook's `reorderTasks` saves "the new order" (the comment at
  `src/hooks/useTasks.ts:129`) as the local tasks of the hook's `tasks` list. It saves all
  of them, whether or not the list component shows them under its filters
  (`UseTasks.ReorderSavesListedLocalTasks`). Two things follow:
  - A stored task that is missing from `tasks` is dropped from the store.
  - After an update whose refetch failed, `tasks` still holds the old record. A reorder
    then writes the old record back over the store's newer one
    (`UseTasks.ReorderRestoresStaleRecord`).
- The store's not-found error cannot reach the hook. The gate `isLocalTask` and the
  store's own lookup read the same array, so behind the gate the id is always found
  (`UseTasks.TaskBoard.IsLocalTask`).

## Model

| member | source | states |
|---|---|---|
| `LocalTaskApi.SeedTasks` | src/services/localTaskApi.ts:14-37 | the fallback list has three tasks with ids 1, 2, 3, only id 3 completed, user 1, created now, ids unique |
| `LocalTaskApi.LocalTaskStore.GetTasks` | src/services/localTaskApi.ts:7-42 | nothing stored gives the seed list, an unreadable key gives `[]`, otherwise the stored array; a read writes nothing |
| `LocalTaskApi.LocalTaskStore.SaveTasks` | src/services/localTaskApi.ts:45-51 | the key holds the saved array afterwards, so a later read returns it, unless the write fails, in which case nothing changes |
| `LocalTaskApi.NewTask` | src/services/localTaskApi.ts:56-63 | `completed` is true iff `true` was passed; `userId` is 1 iff it was missing, 0 or 1, otherwise the one given; text and category are passed through; created now, never updated |
| `LocalTaskApi.LocalTaskStore.CreateTask` | src/services/localTaskApi.ts:54-68 | the saved list is the old list followed by the new task, which is returned |
| `LocalTaskApi.IndexOf` | src/services/localTaskApi.ts:75 | -1 iff no task has the id; otherwise the index of the first task with the id |
| `LocalTaskApi.LocalTaskStore.UpdateTask` | src/services/localTaskApi.ts:71-92 | an absent id gives `NotFound` and writes nothing; otherwise the first match is overlaid with the updates and stamped `updatedAt = now`, that list is saved and the new record returned |
| `LocalTaskApi.UpdateListSpec` | src/services/localTaskApi.ts:75-86 | the saved list is the reference "replace the first match" edit; length and every id are unchanged; an absent id changes nothing |
| `LocalTaskApi.UpdateIdempotent` | src/services/localTaskApi.ts:79-86 | applying the same update at the same instant twice equals applying it once |
| `LocalTaskApi.LocalTaskStore.DeleteTask` | src/services/localTaskApi.ts:95-103 | the list without the tasks with the id is saved, also when no task matched |
| `LocalTaskApi.DeleteListSpec` | src/services/localTaskApi.ts:99-101 | no task with the id remains; every other task is kept as often as before and in order; an absent id leaves the list unchanged |
| `LocalTaskApi.CreateThenDelete` | src/services/localTaskApi.ts:54-103 | creating a task under an unused id and then deleting that id gives back the original list |
| `LocalTaskApi.LocalTaskStore.ToggleTaskCompletion` | src/services/localTaskApi.ts:106-127 | an absent id gives `NotFound` and writes nothing; otherwise the first match has `completed` negated and `updatedAt = now`, that list is saved and the record returned |
| `LocalTaskApi.ToggleList` | src/services/localTaskApi.ts:110-120 | length and ids are kept; only the first task with the id changes, with `completed` negated and `updatedAt = now`; an absent id leaves the list equal |
| `LocalTaskApi.ToggleTwice` | src/services/localTaskApi.ts:110-121 | toggling twice restores every task except the `updatedAt` stamp of the toggled one, so every `completed` flag is restored |
| `LocalTaskApi.LocalTaskStore.ReorderTasks` | src/services/localTaskApi.ts:130-136 | the saved list is the stored list with the element at `start` moved to `end`, both read as `splice` reads them; a `start` below `-n` moves the first task |
| `LocalTaskApi.ReorderListSpec` | src/services/localTaskApi.ts:132-135 | the reorder is a permutation; the element from `start` lands at `end`; the other tasks keep their relative order; a `start` below `-n` moves the first task |
| `Seqs.SpliceIndex` | src/services/localTaskApi.ts:133-134 | an index in `0..len` is kept; a negative index down to `-len` counts from the end; an index below `-len` gives 0 and one above `len` gives `len`, as `splice` reads its start |
| `Seqs.MoveFacts` | src/hooks/useTasks.ts:126-128 | removing one element and reinserting it at `to` keeps the length and the multiset, puts the element at `to`, and leaves the other elements in order |
| `UseTasks.MergeTasks` | src/hooks/useTasks.ts:14-19 | the merge starts with the local list exactly, and every later element is a remote task that no local task shadows |
| `UseTasks.MergeRemotePart` | src/hooks/useTasks.ts:16-18 | after the local prefix come exactly the unshadowed remote tasks, in fetch order, each as often as fetched; no shadowed remote task appears |
| `UseTasks.MergeUniqueIds` | src/hooks/useTasks.ts:16-18 | the merge has unique ids iff the local list and the surviving remote tasks each do; unique ids in both inputs give unique ids in the merge |
| `UseTasks.MergePartition` | src/hooks/useTasks.ts:121-122 | splitting a fresh merge by store membership gives back the local list and the surviving remote tasks |
| `UseTasks.PartitionPermutes` | src/hooks/useTasks.ts:121-122 | the local and remote partitions of the list together hold every task of it, each as often |
| `UseTasks.KeyIndexById` | src/hooks/useTasks.ts:123-124 | looking a task up by `id.toString()` finds the same index as looking it up by id |
| `UseTasks.ReorderSpec` | src/hooks/useTasks.ts:126-132 | a reorder that found both keys is a permutation of the list; the dragged task lands at the target's index; the other local tasks keep their order; the remote partition follows unchanged |
| `UseTasks.ReorderSavesListedLocalTasks` | src/hooks/useTasks.ts:121-130 | the saved list holds exactly the tasks of the hook's `tasks` list whose id is in the store, filtered out of view or not; a stored task missing from `tasks` is not saved |
| `UseTasks.ReorderTwoLocalTasks` | src/hooks/useTasks.ts:121-132 | with two local tasks in store order, dragging the first onto the second swaps them |
| `UseTasks.ReorderRestoresStaleRecord` | src/hooks/useTasks.ts:121-130 | when `tasks` holds an older record of a stored task, the reorder saves that older record and not the stored one |
| `UseTasks.UseFilteredTasks` | src/hooks/useTasks.ts:154-163 | `totalCount` is the input length; `filteredCount` is the filtered length; `filteredTasks` is `sortTasks` applied to `filterTasks`' result: a permutation of it, sorted by the chosen order, ties in filter order |
| `UseTasks.TaskBoard.IsLocalTask` | src/hooks/useTasks.ts:39-42 | an id is local iff the store's lookup by id finds it in the current contents, seed included |
| `UseTasks.TaskBoard.constructor` | src/hooks/useTasks.ts:9-11 | the hook starts with an empty `tasks` list and no error |
| `UseTasks.TaskBoard.Refresh` | src/hooks/useTasks.ts:69-72 | a fetched snapshot sets `tasks` to its merge with the current store; a failed fetch keeps `tasks`, sets the error and throws |
| `UseTasks.TaskBoard.FetchTasks` | src/hooks/useTasks.ts:21-36 | a fetched snapshot sets the list to its merge with the store and clears the error; a failed fetch keeps the list and sets the error |
| `UseTasks.TaskBoard.CreateTask` | src/hooks/useTasks.ts:44-56 | the new task is put at index 0 of the list and the rest is unchanged, while the store appends it |
| `UseTasks.TaskBoard.UpdateTask` | src/hooks/useTasks.ts:59-76 | a non-local id is refused: error set, no throw, list and store unchanged; otherwise the store saves the update and the list becomes the new merge, or, if the refetch fails, stays as it was while the error is set and the call throws |
| `UseTasks.TaskBoard.DeleteTask` | src/hooks/useTasks.ts:79-95 | the same gate; otherwise the store saves the list without that id and the list is refreshed, or left stale on a failed refetch |
| `UseTasks.TaskBoard.ToggleTaskCompletion` | src/hooks/useTasks.ts:98-114 | the same gate; otherwise the store saves the toggled list and the list is refreshed, or left stale on a failed refetch |
| `UseTasks.TaskBoard.ReorderTasks` | src/hooks/useTasks.ts:117-134 | if either key is not among the local tasks, nothing changes and nothing is saved; otherwise the moved local partition is saved and the list becomes it followed by the remote partition in its previous order |
| `Helpers.FilterTasks` | src/utils/helpers.ts:23-46 | the result is no longer than the input; every kept task is from the input and matches the status; with status `'all'` and a blank search the input comes back whole |
| `Helpers.FilterTasksSpec` | src/utils/helpers.ts:23-46 | the result is the subsequence of tasks whose status matches and which contain the lower-cased search, the search applying only when it is non-blank after trimming |
| `Helpers.SortTasks` | src/utils/helpers.ts:48-64 | the sort returns a permutation of a copy of its input |
| `Helpers.Before` | src/utils/helpers.ts:53-61 | every comparator answers `<= 0` for a task against itself; the status comparator lets an incomplete task precede any task and a completed task precede only completed ones; the created comparator puts the later creation time first |
| `Helpers.BeforeTotal` | src/utils/helpers.ts:51-63 | each comparator orders every pair one way or the other |
| `Helpers.BeforeTransitive` | src/utils/helpers.ts:51-63 | each comparator's "may precede" relation is transitive |
| `Helpers.SortTasksSorted` | src/utils/helpers.ts:48-64 | for every sort option, no pair of the result is out of order |
| `Helpers.SortByTitleAscending` | src/utils/helpers.ts:53 | the `'title'` order is ascending by task text |
| `Helpers.SortByStatusPartitions` | src/utils/helpers.ts:55 | the `'status'` order is the incomplete tasks in input order, then the completed tasks in input order |
| `Helpers.SortByCreatedNewestFirst` | src/utils/helpers.ts:56-62 | the `'created'` order, also the default, has non-increasing creation time, a missing time counting as 0 |
| `Helpers.FindCategory` | src/utils/helpers.ts:68 | `None` iff no category has the id; otherwise the first category with that id |
| `Helpers.GetCategoryById` | src/utils/helpers.ts:66-69 | a missing or empty id gives none; any other id gives the first category of the list with that id, and none when no category has it |
| `Text.Lower` | src/utils/helpers.ts:39-41 | lower-casing keeps the length and maps each character |
| `Text.TrimEmptyIffBlank` | src/utils/helpers.ts:38 | `search.trim()` is empty iff the search is all white space |
| `Text.StrLeqTotal` | src/utils/helpers.ts:53 | the string order compares every two strings |
| `Text.StrLeqTransitive` | src/utils/helpers.ts:53 | the string order is transitive |
| `Text.IdRoundTrip` | src/components/TaskList.tsx:50 | the decimal string of an id reads back to that id |
| `Text.IdToStringInjective` | src/components/TaskList.tsx:145 | two ids have the same item key iff they are equal |
| `TaskList.DisplayedTasks` | src/components/TaskList.tsx:88-94 | the list shows a subsequence of the tasks in their order: those whose status matches and, for a non-empty search as typed, whose lower-cased text contains it |
| `TaskList.DisplayIgnoresSort` | src/components/TaskList.tsx:88 | the sort option does not change what the list shows |
| `TaskList.DisplayAgreesWithFilterTasks` | src/components/TaskList.tsx:92 | unless the search is non-empty white space, the list shows exactly what `filterTasks` returns |
| `TaskList.BlankSearchDiffers` | src/components/TaskList.tsx:92 | with a white-space search, the list hides a task with empty text that `filterTasks` keeps |
| `TaskList.DragEnd` | src/components/TaskList.tsx:103-108 | a reorder is requested iff the drop is over an item other than the dragged one, with both ids as strings |
| `TaskList.DragEndMovesToAnotherIndex` | src/components/TaskList.tsx:105 | a requested reorder never finds both keys at the same local index |
| `TaskList.SameKeyReorderIsNoOp` | src/components/TaskList.tsx:105 | moving a task onto its own index would give back the same list |
| `Storage.StorageService.GetCategories` | src/services/storage.ts:10-18 | nothing stored or a read error gives `[]`; otherwise the stored list |
| `Storage.StorageService.SaveCategories` | src/services/storage.ts:20-26 | after a save that did not fail, a read gives back the saved list |
| `Storage.StorageService.AddCategory` | src/services/storage.ts:28-32 | the stored list gains the category at its end |
| `Storage.CategoryIndex` | src/services/storage.ts:36 | -1 iff no category has the id; otherwise the first index with the id |
| `Storage.StorageService.UpdateCategory` | src/services/storage.ts:34-41 | with no matching id nothing is written; otherwise the list with the first match overlaid is saved |
| `Storage.UpdateFirstCategorySpec` | src/services/storage.ts:35-40 | only the first matching entry is overlaid; length and all other entries are unchanged; no match changes nothing |
| `Storage.StorageService.DeleteCategory` | src/services/storage.ts:43-47 | the list without the categories with the id is saved, also when none matched |
| `Storage.DeleteCategoriesSpec` | src/services/storage.ts:44-46 | no category with the id remains; the others are kept as often as before and in order; an absent id changes nothing |
| `Storage.StorageService.GetTheme` | src/services/storage.ts:50-58 | the result is never empty; it is the stored string when one is stored and non-empty, and `"light"` otherwise |
| `Storage.StorageService.SaveTheme` | src/services/storage.ts:60-66 | after a save that did not fail, `getTheme` returns the saved theme |
| `CategoryContext.CategoryProvider.constructor` | src/contexts/CategoryContext.tsx:29-34 | the provider starts with the stored category list |
| `CategoryContext.CategoryProvider.AddCategory` | src/contexts/CategoryContext.tsx:36-47 | one category with the given name is appended and the others are unchanged; the state and the store get the same new list |
| `CategoryContext.UpdateEveryCategory` | src/contexts/CategoryContext.tsx:50-52 | length and order are kept; exactly the entries with the id are overlaid; no match leaves the list equal |
| `CategoryContext.CategoryProvider.UpdateCategory` | src/contexts/CategoryContext.tsx:49-55 | the state becomes the every-match update and is saved, also when nothing matched |
| `CategoryContext.UpdatesAgreeOnUniqueIds` | src/contexts/CategoryContext.tsx:50-52 | with unique category ids, the provider's every-match update equals the storage service's first-match update |
| `CategoryContext.UpdatesDifferOnDuplicateIds` | src/contexts/CategoryContext.tsx:50-52 | with two categories under one id, the provider renames both and the storage service only the first |
| `CategoryContext.CategoryProvider.DeleteCategory` | src/contexts/CategoryContext.tsx:57-61 | the state drops every category with the id and is saved |
| `CategoryContext.CategoryProvider.GetCategoryById` | src/contexts/CategoryContext.tsx:63-65 | `None` iff no category of the state has the id; otherwise the first one with it; an empty id is looked up like any other |

## Left out

- `src/services/api.ts`: the HTTP client is not part of this model. The remote snapshot is an input, and a rejected fetch is `None`. The client's write calls are never used by the hook.
- `loading` state, `async`/`await`, `Promise.all` and the `useEffect` timing: the model runs each hook operation as one sequential step. `error` is kept, but its message strings are not.
- `LocalTaskApi.LocalTaskStore.ReorderTasks`: requires a non-empty list and `start < n`. When the list is empty or `start >= n`, the first `splice` removes nothing and the second inserts `undefined` into the stored array, which a `seq<Task>` cannot hold. A `start` below `-n` is modelled: `splice` clamps it to 0.
- `UseTasks.TaskBoard.CreateTask`: the store write cannot throw, so the hook's catch-and-rethrow path is not modelled.
- `JSON.parse` of a value that is not an array (`"null"`, an object) is not modelled. Any unreadable value is `Unreadable`.
- ISO-8601 timestamps are instants in milliseconds. Formatting, parsing and invalid dates are not modelled.
- `Number.prototype.toString` exponent form (ids of 1e21 and more) is not modelled.
- `toLowerCase` beyond ASCII and locale-aware `localeCompare` are not modelled.
- `generateId`, `generateColor`, `formatDate` and `debounce`: randomness, locale formatting and timers. New category ids and colours are parameters.
- The type-level restriction of `getTheme`'s result to `'light' | 'dark'` is not checked by the source at run time. The model returns whatever non-empty string is stored.
- `useCategories`' provider check, rendering, drag gestures and the other components are not modelled.
