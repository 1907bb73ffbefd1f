/** What the two tables mean: one append-only log of contents for each document.
    `log[n - 1]` is the content that version n had. The last entry is the row itself, the
    earlier ones live in the snapshots. */
module History {
  import opened Documents

  type Log = seq<Content>
  type Logs = map<DocumentId, Log>

  ghost predicate Archived(t: Tables, id: DocumentId, version: nat) {
    exists v :: v in t.versions && t.versions[v].document == id && t.versions[v].version == version
  }

  ghost predicate SnapshotFits(t: Tables, v: VersionId, id: DocumentId, log: Log)
    requires v in t.versions
  {
    t.versions[v].document == id ==>
      1 <= t.versions[v].version <= |log| && t.versions[v].content == log[t.versions[v].version - 1]
  }

  /** The rows of document `id` say exactly `log`. A failed update may leave a second snapshot
      of some version; it must then carry the same content. */
  ghost predicate Records(t: Tables, id: DocumentId, log: Log)
    requires id in t.documents
  {
    var row := t.documents[id];
    && 1 <= row.version == |log|
    && row.content == log[row.version - 1]
    && (forall v | v in t.versions :: SnapshotFits(t, v, id, log))
    && (forall n: nat | 1 <= n < row.version :: Archived(t, id, n))
  }

  ghost predicate Refines(t: Tables, logs: Logs) {
    && logs.Keys == t.documents.Keys
    && (forall v | v in t.versions :: t.versions[v].document in t.documents)
    && (forall id | id in logs :: Records(t, id, logs[id]))
  }

  /** Nothing is lost: the tables determine every log they refine. */
  lemma LogsAreReadBack(t: Tables, a: Logs, b: Logs)
    requires Refines(t, a) && Refines(t, b)
    ensures a == b
  {
    forall id | id in a
      ensures a[id] == b[id]
    {
      assert Records(t, id, a[id]) && Records(t, id, b[id]);
      var row := t.documents[id];
      forall i | 0 <= i < row.version
        ensures a[id][i] == b[id][i]
      {
        if i + 1 < row.version {
          assert Archived(t, id, i + 1);
          var v :| v in t.versions && t.versions[v].document == id && t.versions[v].version == i + 1;
          assert SnapshotFits(t, v, id, a[id]) && SnapshotFits(t, v, id, b[id]);
        }
      }
    }
  }

  // ── What each statement does to the logs ──────────────────────────────────────

  lemma EmptyRefines()
    ensures Refines(EMPTY, map[])
  {
  }

  lemma InsertDocumentStartsLog(t: Tables, logs: Logs, id: DocumentId, bucket: string, name: string, content: Content)
    requires Refines(t, logs) && id !in t.documents
    ensures Refines(InsertDocument(t, id, bucket, name, content), logs[id := [content]])
  {
    var t', logs' := InsertDocument(t, id, bucket, name, content), logs[id := [content]];
    forall d | d in logs'
      ensures Records(t', d, logs'[d])
    {
      if d != id {
        assert Records(t, d, logs[d]);
        RecordsFrame(t, t', d, logs[d]);
      }
    }
  }

  // Records looks at one row and at the snapshots only.
  lemma RecordsFrame(t: Tables, t': Tables, id: DocumentId, log: Log)
    requires id in t.documents && id in t'.documents && Records(t, id, log)
    requires t'.versions == t.versions
    requires t'.documents[id].version == t.documents[id].version && t'.documents[id].content == t.documents[id].content
    ensures Records(t', id, log)
  {
    forall v | v in t'.versions
      ensures SnapshotFits(t', v, id, log)
    {
      assert SnapshotFits(t, v, id, log);
    }
    forall n: nat | 1 <= n < t'.documents[id].version
      ensures Archived(t', id, n)
    {
      assert Archived(t, id, n);
    }
  }

  /** A snapshot of the current version, taken once or many times, leaves the logs alone. */
  lemma InsertVersionKeepsLogs(t: Tables, logs: Logs, versionId: VersionId, s: Snapshot)
    requires Refines(t, logs) && versionId !in t.versions
    requires s.document in t.documents
    requires s.version == t.documents[s.document].version && s.content == t.documents[s.document].content
    ensures Refines(InsertVersion(t, versionId, s), logs)
    ensures Archived(InsertVersion(t, versionId, s), s.document, s.version)
    ensures forall d, n: nat :: Archived(t, d, n) ==> Archived(InsertVersion(t, versionId, s), d, n)
  {
    var t' := InsertVersion(t, versionId, s);
    assert t'.versions[versionId] == s;
    forall d, n: nat | Archived(t, d, n)
      ensures Archived(t', d, n)
    {
      var v :| v in t.versions && t.versions[v].document == d && t.versions[v].version == n;
      assert v in t'.versions && t'.versions[v] == t.versions[v];
    }
    forall d | d in logs
      ensures Records(t', d, logs[d])
    {
      assert Records(t, d, logs[d]);
      forall v | v in t'.versions
        ensures SnapshotFits(t', v, d, logs[d])
      {
        if v != versionId {
          assert SnapshotFits(t, v, d, logs[d]);
        }
      }
    }
  }

  // Statements that change neither versions nor contents.
  predicate SameContents(t: Tables, t': Tables) {
    && t'.versions == t.versions
    && t'.documents.Keys == t.documents.Keys
    && forall d | d in t.documents ::
         t'.documents[d].version == t.documents[d].version && t'.documents[d].content == t.documents[d].content
  }

  lemma DeleteKeepsContents(t: Tables, id: DocumentId)
    ensures SameContents(t, MarkDeleted(t, id))
  {
  }

  lemma RenameKeepsContents(t: Tables, id: DocumentId, name: string)
    ensures SameContents(t, RenameRow(t, id, name))
  {
  }

  lemma LogsFrame(t: Tables, t': Tables, logs: Logs)
    requires Refines(t, logs) && SameContents(t, t')
    ensures Refines(t', logs)
  {
    forall d | d in logs
      ensures Records(t', d, logs[d])
    {
      assert Records(t, d, logs[d]);
      RecordsFrame(t, t', d, logs[d]);
    }
  }

  /** DeleteDocument and RenameDocument leave the logs alone. */
  lemma DeleteAndRenameKeepLogs(t: Tables, logs: Logs, id: DocumentId, name: string)
    requires Refines(t, logs)
    ensures Refines(MarkDeleted(t, id), logs)
    ensures Refines(RenameRow(t, id, name), logs)
  {
    DeleteKeepsContents(t, id);
    LogsFrame(t, MarkDeleted(t, id), logs);
    RenameKeepsContents(t, id, name);
    LogsFrame(t, RenameRow(t, id, name), logs);
  }

  // The rewritten row itself.
  lemma UpdatedRowRecords(t: Tables, id: DocumentId, log: Log, name: string, content: Content)
    requires Live(t, id) && Records(t, id, log)
    requires Archived(t, id, t.documents[id].version)
    ensures Records(UpdateRow(t, id, name, content), id, log + [content])
  {
    var t', log' := UpdateRow(t, id, name, content), log + [content];
    forall v | v in t'.versions
      ensures SnapshotFits(t', v, id, log')
    {
      assert SnapshotFits(t, v, id, log);
    }
    forall n: nat | 1 <= n < t'.documents[id].version
      ensures Archived(t', id, n)
    {
      assert Archived(t, id, n);
    }
  }

  lemma UpdateAppends(t: Tables, logs: Logs, id: DocumentId, name: string, content: Content)
    requires Refines(t, logs) && Live(t, id)
    requires Archived(t, id, t.documents[id].version)
    ensures Refines(UpdateRow(t, id, name, content), logs[id := logs[id] + [content]])
  {
    var t', logs' := UpdateRow(t, id, name, content), logs[id := logs[id] + [content]];
    assert t'.versions == t.versions;
    forall d | d in logs'
      ensures Records(t', d, logs'[d])
    {
      assert Records(t, d, logs[d]);
      if d == id {
        UpdatedRowRecords(t, id, logs[id], name, content);
      } else {
        RecordsFrame(t, t', d, logs[d]);
      }
    }
  }

  lemma UpdateNeedsArchive(t: Tables, id: DocumentId, name: string, content: Content, logs: Logs)
    requires Live(t, id) && t.documents[id].version >= 1
    requires Refines(UpdateRow(t, id, name, content), logs)
    ensures Archived(t, id, t.documents[id].version)
  {
    var t' := UpdateRow(t, id, name, content);
    assert Records(t', id, logs[id]);
    assert Archived(t', id, t.documents[id].version);
    var v :| v in t'.versions && t'.versions[v].document == id && t'.versions[v].version == t.documents[id].version;
    assert v in t.versions;
  }

  /** The UPDATE leaves rows that still spell out a log when, and only when, the version it
      overwrites has been archived: without that snapshot no log at all fits the new rows. */
  lemma UpdateIsLosslessExactlyWhenArchived(t: Tables, logs: Logs, id: DocumentId, name: string, content: Content)
    requires Refines(t, logs) && Live(t, id)
    ensures (exists any: Logs :: Refines(UpdateRow(t, id, name, content), any))
            <==> Archived(t, id, t.documents[id].version)
  {
    assert Records(t, id, logs[id]);
    if Archived(t, id, t.documents[id].version) {
      UpdateAppends(t, logs, id, name, content);
    }
    if any: Logs :| Refines(UpdateRow(t, id, name, content), any) {
      UpdateNeedsArchive(t, id, name, content, any);
    }
  }
}
