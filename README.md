# Task manager: list projection, dashboard state and task form

A Dafny model of the logic in a browser task manager. Signed-in users keep personal
to-do items in a realtime document database. The model covers:

- **TaskTypes** (`task_types.dfy`): the task record, the form payload, the three
  statuses, and the filter and sort choices.
- **TaskProjection** (`projection.dfy`): the list the dashboard shows. It keeps the
  tasks that match the status filter. Then it sorts them by due date with a stable
  sort, earliest first or latest first. The in-place array sort is proved equal to a
  functional stable insertion sort. A uniqueness lemma shows that every stable sort
  with this comparator gives the same order. So the model does not depend on the
  sort algorithm the JavaScript engine uses.
- **TaskStore** (`task_store.dfy`): the remote `tasks` collection as a map from
  document id to document data. It gives create (`addDoc`), update (`updateDoc`) and
  delete (`deleteDoc`) their effect on that map. It also holds the record shapes that
  a create writes and a snapshot delivers.
- **TaskFormState** (`task_form.dfy`): the form as a class with a mutable
  `formData` cell. The cell starts empty. It is loaded from the task being edited,
  overwritten one field per input event, and cleared after a submit in create mode
  only.
- **DashboardState** (`dashboard.dfy`): the dashboard as a class over its state
  cells `(tasks, loading, editingTask, statusFilter, sortOrder)`. It has the
  subscription callback, the three write handlers, the derived list, and the wiring
  of the form's submit, edit and cancel to the handlers.

Due dates stay text, as in the source. The parser `new Date(s).getTime()` is a
parameter `time: string -> int`. Two tasks tie when `time` gives them the same
instant. Stability is stated as `SameTies`: for every instant, the tasks due then
appear in the output in the same order as in the input.

Three behaviours of the code are easy to miss, and the model keeps them as written:

- The derived list is not always a copy. With the filter at 'all', the code sorts
  the `tasks` state array itself in place (Dashboard.tsx:79 and 85).
  `Dashboard.FilteredAndSorted` models this aliasing. `ProjectionIgnoresPriorSort`
  proves that the reordering never changes a later derived list.
- A change of signed-in user does not clear the list. `tasks` and `loading` stay as
  they were until the next delivery (`Dashboard.ChangeUser`).
- An update always writes all four form fields, never a subset.

## Model

| member | source | states |
|---|---|---|
| TaskProjection.KeepStatus | task-manager/components/Dashboard.tsx:82 | the result holds exactly the input's tasks in the chosen status, no more often than in the input, so it is no longer than the input (counts and order: `KeepStatusCounts`, `KeepStatusInOrder`) |
| TaskProjection.KeepStatusCounts | task-manager/components/Dashboard.tsx:82 | every task in the chosen status is kept exactly as often as it occurs in the input; every other task occurs zero times |
| TaskProjection.KeepStatusInOrder | task-manager/components/Dashboard.tsx:82 | the kept tasks are a subsequence of the input: they stand in their input order |
| TaskProjection.KeepStatusConcat | task-manager/components/Dashboard.tsx:82 | filtering a concatenation is the concatenation of the filtered parts |
| TaskProjection.SubsequenceMultiset | task-manager/components/Dashboard.tsx:82 | a subsequence holds no task more often than the list it is taken from |
| TaskProjection.FilterUnique | task-manager/components/Dashboard.tsx:79-83 | the filter step's result is the only list that keeps the input order, holds each passing task as often as the input, and holds no other task |
| TaskProjection.FilterByStatus | task-manager/components/Dashboard.tsx:79-83 | with 'all' the very same list comes back; otherwise exactly the tasks whose status equals the filter remain: each passing task as often as in the input, no other task, in input order |
| TaskProjection.SortByDue | task-manager/components/Dashboard.tsx:85-89 | the sort is a permutation of its input (same multiset, same length) |
| TaskProjection.Project | task-manager/components/Dashboard.tsx:78-90 | a task is in the derived list iff it is in `tasks` and passes the filter; the list is a permutation of the filtered list and no longer than `tasks`; with 'all' it is a permutation of `tasks`, so no task is dropped |
| TaskProjection.SortByDueSorted | task-manager/components/Dashboard.tsx:85-89 | the sort's output is ordered by the comparator: every earlier task may precede every later one |
| TaskProjection.SortByDueKeepsTies | task-manager/components/Dashboard.tsx:85-89 | the sort is stable: for every due instant, the tasks due then keep their input order |
| TaskProjection.SortedTiesUnique | task-manager/components/Dashboard.tsx:85-89 | two lists sorted by the same comparator with the same tasks in the same order at every due instant are equal, so any stable sort gives the same result |
| TaskProjection.ProjectionSorted | task-manager/components/Dashboard.tsx:85-89 | with 'asc' neighbours in the derived list have non-decreasing due instants, with 'desc' non-increasing ones |
| TaskProjection.ProjectionStable | task-manager/components/Dashboard.tsx:85-89 | tasks of the filtered list due at the same instant keep their relative order in the derived list |
| TaskProjection.ProjectionTiesFromTasks | task-manager/components/Dashboard.tsx:78-90 | at every due instant the derived list holds the tasks of `tasks` due then that pass the filter, in their order in `tasks` |
| TaskProjection.ProjectionUnique | task-manager/components/Dashboard.tsx:85-89 | any sorted, stable rearrangement of the filtered list is the derived list |
| TaskProjection.ProjectionIgnoresPriorSort | task-manager/components/Dashboard.tsx:79-89 | sorting the task list in place beforehand, in either order, does not change the derived list for any filter and order |
| TaskProjection.ProjectionExample | task-manager/components/Dashboard.tsx:78-90 | two 'todo' tasks and one 'done' task, filtered to 'todo' and sorted 'asc', give the earlier-due 'todo' task first and drop the 'done' one |
| TaskProjection.SortInPlace | task-manager/components/Dashboard.tsx:85-89 | the array sorted in place with the due-date comparator holds exactly the stable sort of its old contents |
| TaskStore.NewRecord | task-manager/components/Dashboard.tsx:58-62 | a created record carries the four form fields, the current user's uid and the given timestamp |
| TaskStore.WithFields | task-manager/components/Dashboard.tsx:68-69 | an update sets the four form fields and keeps the owner uid and the creation timestamp |
| TaskStore.Tag | task-manager/components/Dashboard.tsx:41 | a delivered document becomes a task with the document's id and exactly the document's data |
| TaskStore.WithOwnFields | task-manager/components/Dashboard.tsx:68-69 | updating a record with its own four fields leaves it unchanged |
| TaskStore.LastUpdateWins | task-manager/components/Dashboard.tsx:68-69 | of two updates of one record only the second shows |
| TaskStore.SnapshotTasks | task-manager/components/Dashboard.tsx:32-42 | for a delivery that is a correct snapshot of the owner-scoped query (`IsSnapshotOf`), the tagged tasks all belong to that owner, have distinct ids, equal the stored documents, and number exactly the owner's stored documents |
| TaskStore.DistinctIdsCount | task-manager/components/Dashboard.tsx:40-42 | a delivery with distinct document ids has as many ids as documents |
| TaskStore.TaskCollection.AddDoc | task-manager/components/Dashboard.tsx:58 | a taken create adds exactly one document under a fresh id; a refused one changes nothing |
| TaskStore.TaskCollection.UpdateDoc | task-manager/components/Dashboard.tsx:69 | an update of an existing document merges the fields into it; a missing document or a refused write fails and changes nothing |
| TaskStore.TaskCollection.DeleteDoc | task-manager/components/Dashboard.tsx:75 | a taken delete removes that id, whether or not it was present; a refused one changes nothing |
| TaskFormState.InitialFormData | task-manager/components/TaskForm.tsx:11-16 | the initial form has empty title, description and due date and status 'todo' |
| TaskFormState.Prefill | task-manager/components/TaskForm.tsx:20-25 | the form loaded from a task holds exactly that task's title, description, due date and status |
| TaskFormState.ApplyEdit | task-manager/components/TaskForm.tsx:57-101 | an input event sets its own field to its value and leaves the other three fields unchanged |
| TaskFormState.EditsCommute | task-manager/components/TaskForm.tsx:57-101 | input events on different fields give the same form in either order |
| TaskFormState.LaterEditWins | task-manager/components/TaskForm.tsx:57-101 | of two input events on the same field only the later one shows |
| TaskFormState.EditsReachAnyForm | task-manager/components/TaskForm.tsx:57-101 | one event per field turns any form into any other |
| TaskFormState.TaskForm.constructor | task-manager/components/TaskForm.tsx:10-16 | the form mounts with the initial empty fields and the given `editTask` prop |
| TaskFormState.TaskForm.ReceiveEditTask | task-manager/components/TaskForm.tsx:6 | a new `editTask` prop replaces the old one |
| TaskFormState.TaskForm.EditTaskEffect | task-manager/components/TaskForm.tsx:18-27 | with a task being edited the form becomes exactly its four fields; without one the form is unchanged |
| TaskFormState.TaskForm.ChangeTitle | task-manager/components/TaskForm.tsx:57 | the title input replaces the title only |
| TaskFormState.TaskForm.ChangeDescription | task-manager/components/TaskForm.tsx:71 | the description input replaces the description only |
| TaskFormState.TaskForm.ChangeDueDate | task-manager/components/TaskForm.tsx:88 | the due-date input replaces the due date only |
| TaskFormState.TaskForm.ChangeStatus | task-manager/components/TaskForm.tsx:101 | the status select replaces the status only |
| TaskFormState.TaskForm.HandleSubmit | task-manager/components/TaskForm.tsx:29-40 | submit hands over the current form unchanged; afterwards the form is back to the initial fields in create mode and unchanged in edit mode |
| DashboardState.Dashboard.constructor | task-manager/components/Dashboard.tsx:15-21 | the dashboard mounts with an empty list, loading, nothing being edited, filter 'all' and sort 'asc' |
| DashboardState.Dashboard.ChangeUser | task-manager/components/Dashboard.tsx:29-48 | a new user reopens the subscription for that uid, or none without a user, and keeps the list and the loading flag |
| DashboardState.Dashboard.Unmount | task-manager/components/Dashboard.tsx:47 | unmounting closes the subscription |
| DashboardState.Dashboard.OnSnapshot | task-manager/components/Dashboard.tsx:38-45 | a delivery replaces the list by exactly the delivered documents, in delivered order, each tagged with its id, and ends loading; when the delivery is a correct snapshot for the subscribed uid, the list holds only that user's tasks, with distinct ids, one per stored document of theirs |
| DashboardState.Dashboard.HandleCreateTask | task-manager/components/Dashboard.tsx:55-63 | without a user nothing is written; otherwise exactly one new document with the form fields, the uid and the timestamp is written if the backend takes it; no dashboard state changes |
| DashboardState.Dashboard.HandleUpdateTask | task-manager/components/Dashboard.tsx:65-72 | without a task being edited nothing happens; otherwise the form fields go to that task's document, and once the write is taken editing ends and the filter returns to 'all'; the list and the sort order never change |
| DashboardState.Dashboard.HandleDeleteTask | task-manager/components/Dashboard.tsx:74-76 | the document with that id is removed if the backend takes the write; no dashboard state changes |
| DashboardState.Dashboard.SetStatusFilter | task-manager/components/Dashboard.tsx:127-132 | the filter control sets the status filter |
| DashboardState.Dashboard.SetSortOrder | task-manager/components/Dashboard.tsx:127-132 | the sort control sets the sort order |
| DashboardState.Dashboard.FilteredAndSorted | task-manager/components/Dashboard.tsx:78-90 | the returned array holds the derived list of the old task list; with 'all' it is the `tasks` array itself, sorted in place; otherwise it is new and `tasks` is untouched; no later derived list changes |
| DashboardState.Dashboard.SubmitForm | task-manager/components/Dashboard.tsx:121-125 | a submit creates in create mode and clears the form, or updates in edit mode and keeps the form's fields even after editing ends; editing state and filter change only after a taken update; the list is untouched |
| DashboardState.Dashboard.EditTask | task-manager/components/Dashboard.tsx:134-138 | Edit makes the task the one being edited and loads it into the form, unless it already was |
| DashboardState.Dashboard.CancelEdit | task-manager/components/Dashboard.tsx:124 | Cancel ends editing and leaves the form's fields as they were |
| DashboardState.UntouchedEditKeepsDocument | task-manager/components/Dashboard.tsx:68-69 | submitting an untouched edit form loaded from a document rewrites that document unchanged |

## Left out

- Firebase calls are not modelled as I/O. This covers `query`, `onSnapshot`,
  `addDoc`, `updateDoc`, `deleteDoc` and `signOut`. Deliveries arrive as a parameter
  of `OnSnapshot`. The backend's verdict on a write (connectivity, security rules)
  is the parameter `accepted`. The auto-generated id of a new document is the
  parameter `newId`, assumed fresh.
- The backend's ordering of a snapshot by `createdAt` descending is not modelled.
  `OnSnapshot` keeps whatever order it is given.
- The ownership filter of the live query (Dashboard.tsx:34) is the backend's job.
  `TaskStore.IsSnapshotOf` states what a correct delivery is. `OnSnapshot` does not
  require it; its ownership guarantees hold only for deliveries that meet it.
- Date parsing (Dashboard.tsx:86-87) is the parameter `time`. Unparseable dates
  (NaN) are not modelled.
- The clock `new Date().toISOString()` (Dashboard.tsx:61) is the parameter `now`.
- Asynchrony is not modelled: each handler runs to completion, with its write
  settled, before the next event. Interleavings of writes with deliveries are out
  of scope.
- At Dashboard.tsx:41 the document data is spread after the document id, so a
  stored field named `id` would override that id. The cast to a task there is
  unchecked. The model takes typed document data without an `id` field, which is
  what this application writes.
- DashboardState.Dashboard.EditTask: React reruns the form's effect when the prop's
  object identity changes. The model compares task values instead.
- Auth redirects, logout and routing (Dashboard.tsx:23-27, 50-53) are navigation.
- Rendering is out of scope: the loading screen (Dashboard.tsx:92-101), TaskList,
  the delete confirmation dialog, the `date-fns` date format, and the TaskFilters
  markup. The filter and sort controls appear only as `SetStatusFilter` and
  `SetSortOrder`.
- The form's `required` input attributes are browser validation and are not
  modelled.
