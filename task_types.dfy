/** The records of the task manager (types/task.ts) and the two enumerations the
    dashboard's filter controls emit. */
module TaskTypes {

  /** The conventional optional value, standing for a value or `null`. */
  datatype Option<+T> = None | Some(value: T)

  /** The three states a task can be in; no other value is representable. */
  datatype TaskStatus = Todo | InProgress | Done

  /** A task as the dashboard holds it: a stored document tagged with its document id.
      `dueDate` is the text of the form's date input and `createdAt` the ISO timestamp
      stamped at creation; both stay text, as in the source. */
  datatype Task = Task(
    id: string,
    title: string,
    description: string,
    dueDate: string,
    status: TaskStatus,
    userId: string,
    createdAt: string)

  /** The four fields the task form edits and submits. */
  datatype TaskFormData = TaskFormData(
    title: string,
    description: string,
    dueDate: string,
    status: TaskStatus)

  /** The status filter: every task, or only the tasks in one status. */
  datatype StatusFilter = All | Only(status: TaskStatus)

  /** The due-date sort: earliest first or latest first. */
  datatype SortOrder = Asc | Desc
}
