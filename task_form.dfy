/** The task form (components/TaskForm.tsx): a state cell holding the four fields,
    prefilled from the task being edited, overwritten one field per input event, and
    handed to the submit callback, after which it is cleared only in create mode. */
module TaskFormState {
  import opened TaskTypes

  /** The empty form the component starts from and returns to after a create. */
  function InitialFormData(): (r: TaskFormData)
    ensures r.title == "" && r.description == "" && r.dueDate == ""
    ensures r.status == Todo
  {
    TaskFormData("", "", "", Todo)
  }

  /** The form loaded from a task being edited: its four editable fields. */
  function Prefill(t: Task): (r: TaskFormData)
    ensures r.title == t.title && r.description == t.description
    ensures r.dueDate == t.dueDate && r.status == t.status
  {
    TaskFormData(t.title, t.description, t.dueDate, t.status)
  }

  /** One input event: the field it comes from and the value it carries. */
  datatype FieldEdit =
    | SetTitle(title: string)
    | SetDescription(description: string)
    | SetDueDate(dueDate: string)
    | SetStatus(status: TaskStatus)

  /** The form after an input event: a copy with that one field replaced. */
  function ApplyEdit(f: TaskFormData, e: FieldEdit): (r: TaskFormData)
    ensures e.SetTitle? ==> r.title == e.title
    ensures e.SetDescription? ==> r.description == e.description
    ensures e.SetDueDate? ==> r.dueDate == e.dueDate
    ensures e.SetStatus? ==> r.status == e.status
    ensures !e.SetTitle? ==> r.title == f.title
    ensures !e.SetDescription? ==> r.description == f.description
    ensures !e.SetDueDate? ==> r.dueDate == f.dueDate
    ensures !e.SetStatus? ==> r.status == f.status
  {
    match e
    case SetTitle(v) => f.(title := v)
    case SetDescription(v) => f.(description := v)
    case SetDueDate(v) => f.(dueDate := v)
    case SetStatus(v) => f.(status := v)
  }

  /** Whether two input events come from the same field. */
  predicate SameField(e1: FieldEdit, e2: FieldEdit) {
    (e1.SetTitle? && e2.SetTitle?) || (e1.SetDescription? && e2.SetDescription?)
    || (e1.SetDueDate? && e2.SetDueDate?) || (e1.SetStatus? && e2.SetStatus?)
  }

  /** Events on different fields can come in either order. */
  lemma EditsCommute(f: TaskFormData, e1: FieldEdit, e2: FieldEdit)
    requires !SameField(e1, e2)
    ensures ApplyEdit(ApplyEdit(f, e1), e2) == ApplyEdit(ApplyEdit(f, e2), e1)
  {
  }

  /** Of two events on the same field only the later one shows. */
  lemma LaterEditWins(f: TaskFormData, e1: FieldEdit, e2: FieldEdit)
    requires SameField(e1, e2)
    ensures ApplyEdit(ApplyEdit(f, e1), e2) == ApplyEdit(f, e2)
  {
  }

  /** Whatever the form holds, four events, one per field, set it to any content. */
  lemma EditsReachAnyForm(f: TaskFormData, g: TaskFormData)
    ensures ApplyEdit(ApplyEdit(ApplyEdit(ApplyEdit(f,
              SetTitle(g.title)), SetDescription(g.description)),
              SetDueDate(g.dueDate)), SetStatus(g.status)) == g
  {
  }

  class TaskForm {
    /** The `formData` state cell. */
    var formData: TaskFormData
    /** The `editTask` prop: the task being edited, or none in create mode. */
    var editTask: Option<Task>

    /** Mounting: the state starts empty, whatever the prop. */
    constructor (editTask: Option<Task>)
      ensures formData == InitialFormData()
      ensures this.editTask == editTask
    {
      formData := InitialFormData();
      this.editTask := editTask;
    }

    /** A new `editTask` prop from the parent. */
    method ReceiveEditTask(e: Option<Task>)
      modifies this`editTask
      ensures editTask == e
    {
      editTask := e;
    }

    /** The effect on `editTask`: load the task being edited; with no task the form
        keeps what it holds. */
    method EditTaskEffect()
      modifies this`formData
      ensures formData == if editTask.Some? then Prefill(editTask.value) else old(formData)
    {
      if editTask.Some? {
        var t := editTask.value;
        formData := TaskFormData(t.title, t.description, t.dueDate, t.status);
      }
    }

    /** The title input's change handler. */
    method ChangeTitle(value: string)
      modifies this`formData
      ensures formData == ApplyEdit(old(formData), SetTitle(value))
    {
      formData := formData.(title := value);
    }

    /** The description textarea's change handler. */
    method ChangeDescription(value: string)
      modifies this`formData
      ensures formData == ApplyEdit(old(formData), SetDescription(value))
    {
      formData := formData.(description := value);
    }

    /** The due-date input's change handler. */
    method ChangeDueDate(value: string)
      modifies this`formData
      ensures formData == ApplyEdit(old(formData), SetDueDate(value))
    {
      formData := formData.(dueDate := value);
    }

    /** The status select's change handler. */
    method ChangeStatus(value: TaskStatus)
      modifies this`formData
      ensures formData == ApplyEdit(old(formData), SetStatus(value))
    {
      formData := formData.(status := value);
    }

    /** handleSubmit: hands the current fields to `onSubmit`, returned here, then
        clears the form in create mode only. */
    method HandleSubmit() returns (submitted: TaskFormData)
      modifies this`formData
      ensures submitted == old(formData)
      ensures formData == if editTask.None? then InitialFormData() else old(formData)
    {
      submitted := formData;
      if editTask.None? {
        formData := TaskFormData("", "", "", Todo);
      }
    }
  }
}
