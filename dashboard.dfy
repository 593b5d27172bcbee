/** The dashboard (components/Dashboard.tsx): its state cells, the subscription
    callback that replaces the task list, the create, update and delete handlers
    that only write to the remote collection, the derived list, and the wiring of
    the task form to the handlers. */
module DashboardState {
  import opened TaskTypes
  import opened TaskProjection
  import opened TaskStore
  import opened TaskFormState

  /** What became of a handler's write: none was issued, the backend took it, or the
      backend refused it (the rejected promise). */
  datatype WriteOutcome = Skipped | Written | Failed

  /** The outcome of a write the backend takes exactly when `ok`. */
  function OutcomeOf(ok: bool): (w: WriteOutcome)
    ensures w != Skipped
    ensures w == Written <==> ok
  {
    if ok then Written else Failed
  }

  class Dashboard {
    /** The signed-in user's uid, as the auth hook reports it. */
    var user: Option<string>
    /** The uid the live query is scoped to, while a subscription is open. */
    var subscription: Option<string>
    /** The `tasks` state: the last snapshot delivered, as an array. */
    var tasks: array<Task>
    var loading: bool
    var editingTask: Option<Task>
    var statusFilter: StatusFilter
    var sortOrder: SortOrder
    /** The remote 'tasks' collection. */
    const db: TaskCollection

    /** Mounting with the auth hook's current user: empty list, loading, nothing being
        edited, all statuses, earliest due first; the query opens when a user is
        signed in. */
    constructor (user: Option<string>, db: TaskCollection)
      ensures this.user == user && this.db == db
      ensures subscription == user
      ensures fresh(tasks) && tasks.Length == 0
      ensures loading && editingTask == None
      ensures statusFilter == All && sortOrder == Asc
    {
      this.user := user;
      this.db := db;
      subscription := user;
      tasks := new Task[0];
      loading := true;
      editingTask := None;
      statusFilter := All;
      sortOrder := Asc;
    }

    /** The auth hook reports another user: the old subscription is torn down and,
        when someone is signed in, a new one opens for that uid. The list and the
        loading flag are left as they were until the next delivery. */
    method ChangeUser(u: Option<string>)
      modifies this`user, this`subscription
      ensures user == u && subscription == u
      ensures tasks == old(tasks) && loading == old(loading)
    {
      user := u;
      subscription := u;
    }

    /** Unmounting: the effect's cleanup closes the subscription. */
    method Unmount()
      modifies this`subscription
      ensures subscription == None
    {
      subscription := None;
    }

    /** The snapshot callback: the delivered documents, in delivered order and each
        tagged with its id, become the whole list, and loading ends. */
    method OnSnapshot(docs: seq<TaskDoc>)
      requires subscription.Some?
      modifies this`tasks, this`loading
      ensures fresh(tasks) && tasks.Length == |docs|
      ensures forall i :: 0 <= i < |docs| ==> tasks[i] == Tag(docs[i])
      ensures !loading
      ensures IsSnapshotOf(docs, db.docs, subscription.value) ==>
        && (forall i :: 0 <= i < tasks.Length ==> tasks[i].userId == subscription.value)
        && (forall i, j :: 0 <= i < j < tasks.Length ==> tasks[i].id != tasks[j].id)
        && (forall i :: 0 <= i < tasks.Length ==> tasks[i].id in db.docs && db.docs[tasks[i].id] == RecordOf(tasks[i]))
        && tasks.Length == |OwnedIds(db.docs, subscription.value)|
    {
      var tasksData := new Task[|docs|];
      for i := 0 to |docs|
        invariant forall k :: 0 <= k < i ==> tasksData[k] == Tag(docs[k])
      {
        tasksData[i] := Tag(docs[i]);
      }
      tasks := tasksData;
      loading := false;
      if IsSnapshotOf(docs, db.docs, subscription.value) {
        SnapshotTasks(docs, db.docs, subscription.value);
      }
    }

    /** handleCreateTask: with nobody signed in, nothing; otherwise one new document
        holding the form fields, the user's uid and the timestamp `now`. The local
        list is not touched. */
    method HandleCreateTask(data: TaskFormData, now: string, newId: string, accepted: bool)
      returns (outcome: WriteOutcome)
      requires newId !in db.docs
      modifies db
      ensures outcome == if user.None? then Skipped else OutcomeOf(accepted)
      ensures db.docs == if outcome == Written
                         then old(db.docs)[newId := NewRecord(data, user.value, now)]
                         else old(db.docs)
      ensures unchanged(this) && unchanged(tasks)
    {
      if user.None? {
        return Skipped;
      }
      var ok := db.AddDoc(NewRecord(data, user.value, now), newId, accepted);
      outcome := OutcomeOf(ok);
    }

    /** handleUpdateTask: with no task being edited, nothing; otherwise the form
        fields are merged into that task's document and, once the write is taken,
        editing ends and the filter goes back to all statuses. The local list and
        the sort order are not touched. */
    method HandleUpdateTask(data: TaskFormData, accepted: bool) returns (outcome: WriteOutcome)
      modifies db, this`editingTask, this`statusFilter
      ensures old(editingTask).None? ==> outcome == Skipped && unchanged(db)
      ensures old(editingTask).Some? ==>
        var id := old(editingTask).value.id;
        && outcome == OutcomeOf(accepted && id in old(db.docs))
        && db.docs == (if outcome == Written
                       then old(db.docs)[id := WithFields(old(db.docs)[id], data)]
                       else old(db.docs))
      ensures outcome == Written ==> editingTask == None && statusFilter == All
      ensures outcome != Written ==> editingTask == old(editingTask) && statusFilter == old(statusFilter)
      ensures unchanged(tasks) && tasks == old(tasks) && loading == old(loading)
      ensures sortOrder == old(sortOrder)
    {
      if editingTask.None? {
        return Skipped;
      }
      var ok := db.UpdateDoc(editingTask.value.id, data, accepted);
      outcome := OutcomeOf(ok);
      if ok {
        editingTask := None;
        statusFilter := All;
      }
    }

    /** handleDeleteTask: removes the document with that id. The local list is not
        touched. */
    method HandleDeleteTask(taskId: string, accepted: bool) returns (outcome: WriteOutcome)
      modifies db
      ensures outcome == OutcomeOf(accepted)
      ensures db.docs == if accepted then old(db.docs) - {taskId} else old(db.docs)
      ensures unchanged(this) && unchanged(tasks)
    {
      var ok := db.DeleteDoc(taskId, accepted);
      outcome := OutcomeOf(ok);
    }

    /** The filter control's setter. */
    method SetStatusFilter(f: StatusFilter)
      modifies this`statusFilter
      ensures statusFilter == f
    {
      statusFilter := f;
    }

    /** The sort control's setter. */
    method SetSortOrder(o: SortOrder)
      modifies this`sortOrder
      ensures sortOrder == o
    {
      sortOrder := o;
    }

    /** getFilteredAndSortedTasks, with the date parser as `time`. With the filter at
        'all' the `tasks` array itself is sorted in place and returned; otherwise a
        new array of the matching tasks is sorted and `tasks` is left alone. Either
        way the reordering of `tasks` changes no later result. */
    method FilteredAndSorted(time: string -> int) returns (r: array<Task>)
      modifies tasks
      ensures r[..] == Project(old(tasks[..]), statusFilter, sortOrder, time)
      ensures statusFilter.All? ==> r == tasks
      ensures statusFilter.Only? ==> fresh(r) && unchanged(tasks)
      ensures forall f, o :: Project(tasks[..], f, o, time) == Project(old(tasks[..]), f, o, time)
    {
      var filtered := tasks;
      if statusFilter.Only? {
        var kept := FilterByStatus(tasks[..], statusFilter);
        filtered := new Task[|kept|](i requires 0 <= i < |kept| => kept[i]);
        assert filtered[..] == kept;
      }
      SortInPlace(filtered, sortOrder, time);
      r := filtered;
      forall f, o
        ensures Project(tasks[..], f, o, time) == Project(old(tasks[..]), f, o, time)
      {
        if statusFilter.All? {
          ProjectionIgnoresPriorSort(old(tasks[..]), sortOrder, f, o, time);
        }
      }
    }

    /** The form's submit, routed as the dashboard renders it: to the update handler
        while a task is being edited, to the create handler otherwise; then the form
        receives the new `editingTask`. In create mode the form is cleared whether or
        not the write is taken; in edit mode it keeps the submitted fields, also after
        editing has ended. */
    method SubmitForm(form: TaskForm, now: string, newId: string, accepted: bool)
      returns (outcome: WriteOutcome)
      requires form.editTask == editingTask
      requires newId !in db.docs
      modifies form, db, this`editingTask, this`statusFilter
      ensures form.editTask == editingTask
      ensures old(editingTask).None? ==>
        && form.formData == InitialFormData()
        && outcome == (if user.None? then Skipped else OutcomeOf(accepted))
        && db.docs == (if outcome == Written
                       then old(db.docs)[newId := NewRecord(old(form.formData), user.value, now)]
                       else old(db.docs))
      ensures old(editingTask).Some? ==>
        var id := old(editingTask).value.id;
        && form.formData == old(form.formData)
        && outcome == OutcomeOf(accepted && id in old(db.docs))
        && db.docs == (if outcome == Written
                       then old(db.docs)[id := WithFields(old(db.docs)[id], old(form.formData))]
                       else old(db.docs))
        && (outcome == Written ==> editingTask == None && statusFilter == All)
      ensures old(editingTask).None? ==> editingTask == None && statusFilter == old(statusFilter)
      ensures outcome != Written ==> editingTask == old(editingTask) && statusFilter == old(statusFilter)
      ensures unchanged(tasks) && tasks == old(tasks)
    {
      var data := form.HandleSubmit();
      if editingTask.Some? {
        outcome := HandleUpdateTask(data, accepted);
      } else {
        outcome := HandleCreateTask(data, now, newId, accepted);
      }
      form.ReceiveEditTask(editingTask);
    }

    /** A task's Edit button: it becomes the task being edited and, when that changes
        the form's prop, the form's effect loads it. */
    method EditTask(form: TaskForm, t: Task)
      requires form.editTask == editingTask
      modifies this`editingTask, form
      ensures editingTask == Some(t) && form.editTask == editingTask
      ensures form.formData == if old(editingTask) == Some(t) then old(form.formData) else Prefill(t)
    {
      var changed := editingTask != Some(t);
      editingTask := Some(t);
      if changed {
        form.ReceiveEditTask(editingTask);
        form.EditTaskEffect();
      }
    }

    /** The form's Cancel button: editing ends; the form's effect sees no task and
        leaves the fields as they were. */
    method CancelEdit(form: TaskForm)
      requires form.editTask == editingTask
      modifies this`editingTask, form
      ensures editingTask == None && form.editTask == None
      ensures form.formData == old(form.formData)
    {
      editingTask := None;
      form.ReceiveEditTask(editingTask);
      form.EditTaskEffect();
    }
  }

  /** Submitting an edit form loaded from a document, untouched, rewrites that
      document exactly as it was. */
  lemma UntouchedEditKeepsDocument(doc: TaskDoc)
    ensures WithFields(doc.data, Prefill(Tag(doc))) == doc.data
  {
  }
}
