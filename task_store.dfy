/** The remote 'tasks' collection the dashboard writes to and subscribes to, reduced
    to a map from document id to document data, and the record shapes that cross it
    (components/Dashboard.tsx). Only the effect of each write on the collection is
    modelled; transport, latency and security rules are left to the caller, who says
    through `accepted` whether the backend took the write. */
module TaskStore {
  import opened TaskTypes

  /** The data of a stored task document: the four form fields, the owner's uid and
      the creation timestamp. */
  datatype TaskRecord = TaskRecord(
    title: string,
    description: string,
    dueDate: string,
    status: TaskStatus,
    userId: string,
    createdAt: string)

  /** A document as a snapshot delivers it: its id and its data. */
  datatype TaskDoc = TaskDoc(id: string, data: TaskRecord)

  /** The four form fields of a stored record. */
  function FieldsOf(r: TaskRecord): TaskFormData {
    TaskFormData(r.title, r.description, r.dueDate, r.status)
  }

  /** The record a create writes: the form fields spread, then the owner's uid and
      the creation timestamp. */
  function NewRecord(data: TaskFormData, uid: string, createdAt: string): (r: TaskRecord)
    ensures FieldsOf(r) == data
    ensures r.userId == uid && r.createdAt == createdAt
  {
    TaskRecord(data.title, data.description, data.dueDate, data.status, uid, createdAt)
  }

  /** A record after an update merges the four form fields into it: owner and
      creation time are not among them and stay. */
  function WithFields(r: TaskRecord, data: TaskFormData): (r': TaskRecord)
    ensures FieldsOf(r') == data
    ensures r'.userId == r.userId && r'.createdAt == r.createdAt
  {
    r.(title := data.title, description := data.description, dueDate := data.dueDate, status := data.status)
  }

  /** A delivered document as a task: its id, then its data. */
  function Tag(doc: TaskDoc): (t: Task)
    ensures t.id == doc.id
    ensures RecordOf(t) == doc.data
  {
    Task(doc.id, doc.data.title, doc.data.description, doc.data.dueDate,
         doc.data.status, doc.data.userId, doc.data.createdAt)
  }

  /** The stored data of a task: everything but its id. */
  function RecordOf(t: Task): TaskRecord {
    TaskRecord(t.title, t.description, t.dueDate, t.status, t.userId, t.createdAt)
  }

  /** An update carrying a record's own fields leaves it as it was. */
  lemma WithOwnFields(r: TaskRecord)
    ensures WithFields(r, FieldsOf(r)) == r
  {
  }

  /** An update keeps neither trace of earlier field values nor of earlier updates:
      the last update wins. */
  lemma LastUpdateWins(r: TaskRecord, first: TaskFormData, second: TaskFormData)
    ensures WithFields(WithFields(r, first), second) == WithFields(r, second)
  {
  }

  /** The tasks of a snapshot of the subscription query: documents of one owner,
      each at most once. */
  ghost predicate IsSnapshotOf(docs: seq<TaskDoc>, store: map<string, TaskRecord>, uid: string) {
    && (forall i, j :: 0 <= i < j < |docs| ==> docs[i].id != docs[j].id)
    && (forall i :: 0 <= i < |docs| ==> docs[i].id in store && store[docs[i].id] == docs[i].data)
    && (forall i :: 0 <= i < |docs| ==> docs[i].data.userId == uid)
    && (forall id :: id in store && store[id].userId == uid ==> exists i :: 0 <= i < |docs| && docs[i].id == id)
  }

  /** The ids of the stored documents that belong to `uid`. */
  ghost function OwnedIds(store: map<string, TaskRecord>, uid: string): set<string> {
    set id | id in store && store[id].userId == uid
  }

  /** The ids of the documents of a delivery. */
  ghost function IdsOf(docs: seq<TaskDoc>): (ids: set<string>)
    ensures forall id :: id in ids <==> exists i :: 0 <= i < |docs| && docs[i].id == id
  {
    if docs == [] then {}
    else
      assert forall i :: 0 < i < |docs| ==> docs[i] == docs[1..][i - 1];
      {docs[0].id} + IdsOf(docs[1..])
  }

  /** A delivery whose ids are distinct has as many ids as documents. */
  lemma {:induction false} DistinctIdsCount(docs: seq<TaskDoc>)
    requires forall i, j :: 0 <= i < j < |docs| ==> docs[i].id != docs[j].id
    ensures |IdsOf(docs)| == |docs|
  {
    if docs != [] {
      var rest := docs[1..];
      assert forall i, j :: 0 <= i < j < |rest| ==> rest[i].id == docs[i + 1].id && rest[j].id == docs[j + 1].id;
      DistinctIdsCount(rest);
      assert docs[0].id !in IdsOf(rest);
    }
  }

  /** Tagging a snapshot yields tasks of that owner only, with distinct ids, each the
      stored document under its id, and one task for every document the owner has. */
  lemma SnapshotTasks(docs: seq<TaskDoc>, store: map<string, TaskRecord>, uid: string)
    requires IsSnapshotOf(docs, store, uid)
    ensures forall i :: 0 <= i < |docs| ==> Tag(docs[i]).userId == uid
    ensures forall i, j :: 0 <= i < j < |docs| ==> Tag(docs[i]).id != Tag(docs[j]).id
    ensures forall i :: 0 <= i < |docs| ==> Tag(docs[i]).id in store && store[Tag(docs[i]).id] == RecordOf(Tag(docs[i]))
    ensures |docs| == |OwnedIds(store, uid)|
  {
    DistinctIdsCount(docs);
    assert IdsOf(docs) == OwnedIds(store, uid);
  }

  /** The 'tasks' collection of the document database. */
  class TaskCollection {
    var docs: map<string, TaskRecord>

    constructor ()
      ensures docs == map[]
    {
      docs := map[];
    }

    /** addDoc: stores `rec` under the fresh id the backend generates. */
    method AddDoc(rec: TaskRecord, newId: string, accepted: bool) returns (ok: bool)
      requires newId !in docs
      modifies this
      ensures ok == accepted
      ensures docs == if ok then old(docs)[newId := rec] else old(docs)
    {
      ok := accepted;
      if ok {
        docs := docs[newId := rec];
      }
    }

    /** updateDoc: merges the fields into an existing document; a missing document
        makes the write fail. */
    method UpdateDoc(id: string, data: TaskFormData, accepted: bool) returns (ok: bool)
      modifies this
      ensures ok == (accepted && id in old(docs))
      ensures docs == if ok then old(docs)[id := WithFields(old(docs)[id], data)] else old(docs)
    {
      ok := accepted && id in docs;
      if ok {
        docs := docs[id := WithFields(docs[id], data)];
      }
    }

    /** deleteDoc: removes the document; deleting a missing one is not an error. */
    method DeleteDoc(id: string, accepted: bool) returns (ok: bool)
      modifies this
      ensures ok == accepted
      ensures docs == if ok then old(docs) - {id} else old(docs)
    {
      ok := accepted;
      if ok {
        docs := docs - {id};
      }
    }
  }
}
