/** internal/repo/store.go: the methods on documents and versions, statement by statement. A caller
    chooses how each statement ends; what the object then holds is stated in full. */
module RepoStore {
  import opened Common
  import opened Documents
  import opened History
  import opened Cluster

  datatype Result<+T> = Ok(value: T) | Err

  /** Whether somebody deletes the document between two statements of a call: nothing groups them
      into a transaction, and DeleteDocument takes no lock. */
  datatype Race = Alone | BeforeUpdate | BeforeReread

  /** The four statements of UpdateDocument and the re-read inside CreateDocumentVersion. */
  datatype Endings = Endings(read: bool, insert: Outcome, scan: bool, update: Outcome, reread: bool, race: Race) {
    predicate Clean() {
      read && insert.Done? && scan && update.Done? && reread
    }
  }

  function SnapshotOf(t: Tables, id: DocumentId): Snapshot
    requires id in t.documents
  {
    Snapshot(id, t.documents[id].version, t.documents[id].content)
  }

  // The snapshot was inserted, whatever the caller was told.
  predicate Archives(t: Tables, id: DocumentId, f: Endings) {
    Live(t, id) && f.read && f.insert.Applied()
  }

  // The row was rewritten, whatever the caller was told.
  predicate Writes(t: Tables, id: DocumentId, name: string, f: Endings) {
    && Archives(t, id, f) && f.insert.Ok() && f.scan && !f.race.BeforeUpdate? && f.update.Applied()
    && !NameTaken(t, t.documents[id].bucket, name, {id})
  }

  // The UNIQUE constraint looks at rows that the UPDATE changes, and it changes no deleted row.
  predicate Conflicts(t: Tables, id: DocumentId, name: string) {
    Live(t, id) && NameTaken(t, t.documents[id].bucket, name, {id})
  }

  function DeletedIf(t: Tables, id: DocumentId, when: bool): Tables {
    if when then MarkDeleted(t, id) else t
  }

  function UpdatedIf(t: Tables, id: DocumentId, name: string, content: Content, when: bool): Tables {
    if when then UpdateRow(t, id, name, content) else t
  }

  // From the UPDATE on.
  function AfterWrite(t: Tables, id: DocumentId, name: string, content: Content, f: Endings): Tables {
    var met := DeletedIf(t, id, f.race.BeforeUpdate?);
    if Conflicts(met, id, name) then met
    else DeletedIf(UpdatedIf(met, id, name, content, f.update.Applied()), id, f.update.Ok() && f.race.BeforeReread?)
  }

  /** The tables after UpdateDocument, for every way its statements can end and be interrupted. */
  function AfterUpdate(t: Tables, id: DocumentId, name: string, content: Content, versionId: VersionId, f: Endings): Tables {
    if !Archives(t, id, f) then t
    else
      var archived := InsertVersion(t, versionId, SnapshotOf(t, id));
      if f.insert.Ok() && f.scan then AfterWrite(archived, id, name, content, f) else archived
  }

  class Store {
    var documents: map<DocumentId, Document>
    var versions: map<VersionId, Snapshot>

    function Rows(): Tables
      reads this
    {
      Tables(documents, versions)
    }

    constructor ()
      ensures Rows() == EMPTY
    {
      documents, versions := map[], map[];
    }

    method GetDocument(id: DocumentId, ok: bool) returns (r: Result<Option<Document>>)
      ensures r == if ok then Ok(SelectDocument(Rows(), id)) else Err
      ensures r.Ok? <==> ok
      ensures r.Ok? ==> (r.value.Some? <==> id in documents && !documents[id].deleted)
      ensures r.Ok? && r.value.Some? ==> r.value.value == documents[id]
    {
      if !ok {
        return Err;
      }
      if id in documents && !documents[id].deleted {
        return Ok(Some(documents[id]));
      }
      return Ok(None);
    }

    method GetDocumentVersion(versionId: VersionId, id: DocumentId, ok: bool) returns (r: Result<Option<Snapshot>>)
      ensures r == if ok then Ok(SelectVersion(Rows(), versionId, id)) else Err
      ensures r.Ok? ==> (r.value.Some? <==> versionId in versions && versions[versionId].document == id)
      ensures r.Ok? && r.value.Some? ==> r.value.value == versions[versionId]
    {
      if !ok {
        return Err;
      }
      if versionId in versions && versions[versionId].document == id {
        return Ok(Some(versions[versionId]));
      }
      return Ok(None);
    }

    /** `raced` is a delete by somebody else between the INSERT and the re-read. */
    method CreateDocument(id: DocumentId, bucket: string, name: string, content: Content, insert: Outcome, reread: bool,
                          raced: bool)
      returns (r: Result<Option<Document>>)
      requires id !in documents
      modifies this
      ensures var inserted := insert.Applied() && !NameTaken(old(Rows()), bucket, name, {});
              var after := if inserted then InsertDocument(old(Rows()), id, bucket, name, content) else old(Rows());
              Rows() == if inserted && insert.Ok() && raced then MarkDeleted(after, id) else after
      ensures r.Ok? <==> insert.Ok() && reread && !NameTaken(old(Rows()), bucket, name, {})
      ensures r.Ok? ==> r.value == if raced then None else Some(Document(bucket, name, content, 1, false))
      ensures insert.Ok() && reread
              && (forall d | d in old(documents) && old(documents)[d].bucket == bucket :: old(documents)[d].name != name)
              ==> r.Ok?
      ensures r.Ok? ==> forall d | d in old(documents) && old(documents)[d].bucket == bucket :: old(documents)[d].name != name
      ensures forall d | d in old(documents) :: d in documents && documents[d] == old(documents)[d]
      ensures versions == old(versions)
    {
      if NameTaken(Rows(), bucket, name, {}) {
        return Err;
      }
      if insert.Applied() {
        documents := documents[id := Document(bucket, name, content, 1, false)];
      }
      if !insert.Ok() {
        return Err;
      }
      if raced {
        documents := documents[id := documents[id].(deleted := true)];
      }
      r := GetDocument(id, reread);
    }

    method CreateDocumentVersion(versionId: VersionId, id: DocumentId, version: nat, content: Content,
                                 insert: Outcome, scan: bool)
      returns (r: Result<Snapshot>)
      requires versionId !in versions
      modifies this
      ensures Rows() == if insert.Applied() then InsertVersion(old(Rows()), versionId, Snapshot(id, version, content))
                        else old(Rows())
      ensures r == if insert.Ok() && scan then Ok(Snapshot(id, version, content)) else Err
    {
      if insert.Applied() {
        versions := versions[versionId := Snapshot(id, version, content)];
      }
      if !insert.Ok() || !scan {
        return Err;
      }
      return Ok(versions[versionId]);
    }

    /** Without an error the document comes back as it is in the table, and as nothing exactly when it
        was deleted between two statements; before the UPDATE, nothing was written either. */
    method UpdateDocument(id: DocumentId, name: string, content: Content, versionId: VersionId, f: Endings)
      returns (r: Result<Option<Document>>)
      requires versionId !in versions
      modifies this
      ensures Rows() == AfterUpdate(old(Rows()), id, name, content, versionId, f)
      ensures r.Ok? <==> f.Clean() && Live(old(Rows()), id) && (f.race.BeforeUpdate? || !Conflicts(old(Rows()), id, name))
      ensures r.Ok? ==> r.value == SelectDocument(Rows(), id)
      ensures r.Ok? ==> (r.value.None? <==> !f.race.Alone?)
      ensures r.Ok? ==> (Writes(old(Rows()), id, name, f) <==> !f.race.BeforeUpdate?)
      ensures r.Ok? && r.value.Some? ==> r.value.value.content == content && r.value.value.name == name
                                         && r.value.value.version == old(Rows()).documents[id].version + 1
                                         && r.value.value.bucket == old(documents)[id].bucket && !r.value.value.deleted
      ensures r.Ok? ==> versionId in versions
                        && versions[versionId] == Snapshot(id, old(documents)[id].version, old(documents)[id].content)
      ensures forall d | d != id && d in old(documents) :: d in documents && documents[d] == old(documents)[d]
      ensures forall v | v != versionId && v in old(versions) :: v in versions && versions[v] == old(versions)[v]
    {
      var found := GetDocument(id, f.read);
      if found.Err? || found.value.None? {
        return Err;
      }
      var current := found.value.value;
      var archived := CreateDocumentVersion(versionId, id, current.version, current.content, f.insert, f.scan);
      if archived.Err? {
        return Err;
      }
      if f.race.BeforeUpdate? {
        documents := documents[id := documents[id].(deleted := true)];
      }
      if !documents[id].deleted {
        if NameTaken(Rows(), current.bucket, name, {id}) {
          return Err;
        }
        if f.update.Applied() {
          documents := documents[id := current.(name := name, content := content, version := current.version + 1)];
        }
      }
      if !f.update.Ok() {
        return Err;
      }
      if f.race.BeforeReread? {
        documents := documents[id := documents[id].(deleted := true)];
      }
      r := GetDocument(id, f.reread);
    }

    method RestoreDocumentVersion(id: DocumentId, target: VersionId, versionId: VersionId,
                                  readTarget: bool, readName: bool, f: Endings)
      returns (r: Result<Option<Document>>)
      requires versionId !in versions
      modifies this
      ensures var found := readTarget && readName && Live(old(Rows()), id)
                           && SelectVersion(old(Rows()), target, id).Some?;
              && (found ==> Rows() == AfterUpdate(old(Rows()), id, old(Rows()).documents[id].name,
                                                  old(Rows()).versions[target].content, versionId, f))
              && (!found ==> Rows() == old(Rows()))
              && (r.Ok? <==> found && f.Clean()
                             && (f.race.BeforeUpdate? || !Conflicts(old(Rows()), id, old(Rows()).documents[id].name)))
              && (r.Ok? ==> (r.value.None? <==> !f.race.Alone?))
              && (r.Ok? && r.value.Some? ==> r.value.value.content == old(Rows()).versions[target].content
                                             && r.value.value.name == old(documents)[id].name
                                             && r.value.value.version == old(documents)[id].version + 1)
    {
      var v := GetDocumentVersion(target, id, readTarget);
      if v.Err? || v.value.None? {
        return Err;
      }
      var current := GetDocument(id, readName);
      if current.Err? || current.value.None? {
        return Err;
      }
      r := UpdateDocument(id, current.value.value.name, v.value.value.content, versionId, f);
    }

    method DeleteDocument(id: DocumentId, update: Outcome) returns (ok: bool)
      modifies this
      ensures Rows() == if update.Applied() then MarkDeleted(old(Rows()), id) else old(Rows())
      ensures ok && id in documents ==> documents[id] == old(documents)[id].(deleted := true)
      ensures forall d | d != id && d in old(documents) :: d in documents && documents[d] == old(documents)[d]
      ensures documents.Keys == old(documents).Keys && versions == old(versions)
      ensures ok == update.Ok()
    {
      if update.Applied() && id in documents {
        documents := documents[id := documents[id].(deleted := true)];
      }
      ok := update.Ok();
    }

    /** A live row whose new name is free in its bucket keeps everything but its name, and every other
        row is as it was. */
    method RenameDocument(id: DocumentId, name: string, update: Outcome, reread: bool)
      returns (r: Result<Option<Document>>)
      modifies this
      ensures var allowed := Live(old(Rows()), id) ==> !NameTaken(old(Rows()), old(Rows()).documents[id].bucket, name, {id});
              && Rows() == (if allowed && update.Applied() then RenameRow(old(Rows()), id, name) else old(Rows()))
              && r == (if allowed && update.Ok() && reread then Ok(SelectDocument(Rows(), id)) else Err)
      ensures r.Ok? && r.value.Some? ==> r.value.value.name == name
      ensures update.Applied() && id in old(documents) && !old(documents)[id].deleted
              && (forall d | d in old(documents) && d != id && old(documents)[d].bucket == old(documents)[id].bucket ::
                    old(documents)[d].name != name)
              ==> id in documents && documents[id] == old(documents)[id].(name := name)
      ensures forall d | d in old(documents) && (d != id || old(documents)[d].deleted) ::
                d in documents && documents[d] == old(documents)[d]
      ensures documents.Keys == old(documents).Keys && versions == old(versions)
    {
      if id in documents && !documents[id].deleted {
        if NameTaken(Rows(), documents[id].bucket, name, {id}) {
          return Err;
        }
        if update.Applied() {
          documents := documents[id := documents[id].(name := name)];
        }
      }
      if !update.Ok() {
        return Err;
      }
      r := GetDocument(id, reread);
    }
  }

  // ── What the calls mean ───────────────────────────────────────────────────────

  lemma DeletedIfKeepsHistory(t: Tables, logs: Logs, id: DocumentId, when: bool)
    requires Refines(t, logs)
    ensures Refines(DeletedIf(t, id, when), logs)
    ensures Live(DeletedIf(t, id, when), id) ==> DeletedIf(t, id, when) == t
  {
    DeleteAndRenameKeepLogs(t, logs, id, "");
  }

  lemma UpdatedIfKeepsHistory(t: Tables, logs: Logs, id: DocumentId, name: string, content: Content, when: bool)
    requires Refines(t, logs) && id in t.documents && (Live(t, id) ==> Archived(t, id, t.documents[id].version))
    ensures Refines(UpdatedIf(t, id, name, content, when),
                    if when && Live(t, id) then logs[id := logs[id] + [content]] else logs)
  {
    if when && Live(t, id) {
      UpdateAppends(t, logs, id, name, content);
    }
  }

  lemma WriteKeepsHistory(t: Tables, logs: Logs, id: DocumentId, name: string, content: Content, f: Endings)
    requires Refines(t, logs) && Live(t, id) && Archived(t, id, t.documents[id].version)
    ensures Refines(AfterWrite(t, id, name, content, f),
                    if !f.race.BeforeUpdate? && f.update.Applied() && !Conflicts(t, id, name)
                    then logs[id := logs[id] + [content]] else logs)
  {
    var met := DeletedIf(t, id, f.race.BeforeUpdate?);
    DeletedIfKeepsHistory(t, logs, id, f.race.BeforeUpdate?);
    if !Conflicts(met, id, name) {
      var applied := f.update.Applied();
      UpdatedIfKeepsHistory(met, logs, id, name, content, applied);
      var logs' := if applied && Live(met, id) then logs[id := logs[id] + [content]] else logs;
      DeletedIfKeepsHistory(UpdatedIf(met, id, name, content, applied), logs', id, f.update.Ok() && f.race.BeforeReread?);
    }
  }

  /** However its statements end and whoever deletes the document meanwhile, UpdateDocument appends
      its content once or not at all; a failure may leave a second snapshot of the current version,
      never a wrong one. */
  lemma UpdateKeepsHistory(t: Tables, logs: Logs, id: DocumentId, name: string, content: Content,
                           versionId: VersionId, f: Endings)
    requires Refines(t, logs) && versionId !in t.versions
    ensures Refines(AfterUpdate(t, id, name, content, versionId, f),
                    if Writes(t, id, name, f) then logs[id := logs[id] + [content]] else logs)
  {
    if Archives(t, id, f) {
      var archived := InsertVersion(t, versionId, SnapshotOf(t, id));
      InsertVersionKeepsLogs(t, logs, versionId, SnapshotOf(t, id));
      assert archived.documents == t.documents;
      assert Conflicts(archived, id, name) <==> NameTaken(t, t.documents[id].bucket, name, {id});
      if f.insert.Ok() && f.scan {
        WriteKeepsHistory(archived, logs, id, name, content, f);
      }
    }
  }

  lemma WrittenRow(t: Tables, id: DocumentId, name: string, content: Content, versionId: VersionId, f: Endings)
    requires Writes(t, id, name, f) && versionId !in t.versions
    ensures var after := AfterUpdate(t, id, name, content, versionId, f);
            && id in after.documents && after.documents[id].content == content
            && after.documents[id].version == t.documents[id].version + 1
            && after.versions == t.versions[versionId := SnapshotOf(t, id)]
  {
    var archived := InsertVersion(t, versionId, SnapshotOf(t, id));
    assert archived.documents == t.documents;
    assert !Conflicts(archived, id, name);
  }

  lemma RestoreAfterUpdate(updated: Tables, logs: Logs, id: DocumentId, v1: VersionId, v2: VersionId, g: Endings)
    returns (restored: Tables)
    requires Refines(updated, logs) && v1 in updated.versions && v2 !in updated.versions && id in updated.documents
    requires id in logs && Writes(updated, id, updated.documents[id].name, g)
    ensures restored == AfterUpdate(updated, id, updated.documents[id].name, updated.versions[v1].content, v2, g)
    ensures id in restored.documents && restored.documents[id].content == updated.versions[v1].content
    ensures restored.documents[id].version == updated.documents[id].version + 1
    ensures Refines(restored, logs[id := logs[id] + [updated.versions[v1].content]])
  {
    restored := AfterUpdate(updated, id, updated.documents[id].name, updated.versions[v1].content, v2, g);
    WrittenRow(updated, id, updated.documents[id].name, updated.versions[v1].content, v2, g);
    UpdateKeepsHistory(updated, logs, id, updated.documents[id].name, updated.versions[v1].content, v2, g);
  }

  /** Update, then restore the snapshot that the update took: the content before the update is
      current again, the log has two entries more and everything before them is unchanged. */
  lemma RestoreUndoesUpdate(t: Tables, logs: Logs, id: DocumentId, name: string, content: Content,
                            v1: VersionId, v2: VersionId, f: Endings, g: Endings)
    returns (updated: Tables, restored: Tables)
    requires Refines(t, logs) && v1 != v2 && v1 !in t.versions && v2 !in t.versions
    requires Writes(t, id, name, f)
    requires var updated := AfterUpdate(t, id, name, content, v1, f);
             id in updated.documents && Writes(updated, id, updated.documents[id].name, g)
    ensures updated == AfterUpdate(t, id, name, content, v1, f)
    ensures id in updated.documents && SelectVersion(updated, v1, id) == Some(SnapshotOf(t, id))
    ensures restored == AfterUpdate(updated, id, updated.documents[id].name, updated.versions[v1].content, v2, g)
    ensures id in restored.documents && restored.documents[id].content == t.documents[id].content
    ensures restored.documents[id].version == t.documents[id].version + 2
    ensures Refines(restored, logs[id := logs[id] + [content, t.documents[id].content]])
  {
    updated := AfterUpdate(t, id, name, content, v1, f);
    WrittenRow(t, id, name, content, v1, f);
    UpdateKeepsHistory(t, logs, id, name, content, v1, f);
    var logs1 := logs[id := logs[id] + [content]];
    restored := RestoreAfterUpdate(updated, logs1, id, v1, v2, g);
    TwoEntries(logs, id, content, t.documents[id].content);
  }

  lemma TwoEntries(logs: Logs, id: DocumentId, c: Content, c': Content)
    requires id in logs
    ensures var once := logs[id := logs[id] + [c]];
            once[id := once[id] + [c']] == logs[id := logs[id] + [c, c']]
  {
    assert logs[id] + [c] + [c'] == logs[id] + [c, c'];
  }

  /** The step system agrees with the method: ReadCurrent, Archive and Write of one request, with
      nobody in between, leave the tables that UpdateDocument leaves. */
  lemma CallIsItsSteps(h: Hashes, s: State, r: RequestId, versionId: VersionId, f: Endings)
    returns (s1: State, s2: State)
    requires r in s.requests && s.requests[r].at.Ready? && s.requests[r].op.OnDocument()
    requires Live(s.tables, s.requests[r].op.document) && versionId !in s.tables.versions
    requires f.read && f.insert.Done? && f.scan && f.race.Alone?
    requires var q := s.requests[r];
             !NameTaken(s.tables, s.tables.documents[q.op.document].bucket, q.at.name, {q.op.document})
    ensures Enabled(h, s, ReadCurrent(r)) && s1 == Apply(h, s, ReadCurrent(r))
    ensures Enabled(h, s1, Archive(r, versionId, Done)) && s2 == Apply(h, s1, Archive(r, versionId, Done))
    ensures Enabled(h, s2, Write(r, f.update))
    ensures var q := s.requests[r];
            Apply(h, s2, Write(r, f.update)).tables
            == AfterUpdate(s.tables, q.op.document, q.at.name, q.at.content, versionId, f)
  {
    s1 := CurrentRead(s, r);
    s2 := SnapshotInserted(s1, r, versionId, Done);
    assert s2.tables.documents == s.tables.documents;
  }
}
