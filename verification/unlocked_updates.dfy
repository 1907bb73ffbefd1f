/** What goes wrong without the lock, and what the lock does not give. */
module UnlockedUpdates {
  import opened Common
  import opened Documents
  import opened History
  import opened Cluster
  import opened Provenance
  import opened Traces

  /** Two UpdateDocument calls whose statements interleave as read, read, insert, insert, update,
      update: the content that the first one wrote is in no row afterwards, and no log at all fits
      the tables. True of every document and every pair of contents. */
  lemma InterleavedUpdatesLoseAVersion(t: Tables, logs: Logs, id: DocumentId, v1: VersionId, v2: VersionId,
                                       n1: string, c1: Content, n2: string, c2: Content)
    requires Refines(t, logs) && Live(t, id)
    requires v1 != v2 && v1 !in t.versions && v2 !in t.versions
    ensures var row := t.documents[id];
            var archived := InsertVersion(InsertVersion(t, v1, Snapshot(id, row.version, row.content)),
                                          v2, Snapshot(id, row.version, row.content));
            var first := UpdateRow(archived, id, n1, c1);
            && Refines(first, logs[id := logs[id] + [c1]])
            && forall any: Logs :: !Refines(UpdateRow(first, id, n2, c2), any)
  {
    var row := t.documents[id];
    var snapshot := Snapshot(id, row.version, row.content);
    var once := InsertVersion(t, v1, snapshot);
    InsertVersionKeepsLogs(t, logs, v1, snapshot);
    InsertVersionKeepsLogs(once, logs, v2, snapshot);
    var archived := InsertVersion(once, v2, snapshot);
    var first := UpdateRow(archived, id, n1, c1);
    UpdateAppends(archived, logs, id, n1, c1);
    var logs' := logs[id := logs[id] + [c1]];
    SnapshotsAreNotNewer(t, logs, id);
    assert forall v | v in first.versions && first.versions[v].document == id :: first.versions[v].version <= row.version;
    assert !Archived(first, id, row.version + 1);
    forall any: Logs
      ensures !Refines(UpdateRow(first, id, n2, c2), any)
    {
      if Refines(UpdateRow(first, id, n2, c2), any) {
        UpdateNeedsArchive(first, id, n2, c2, any);
      }
    }
  }

  lemma SnapshotsAreNotNewer(t: Tables, logs: Logs, id: DocumentId)
    requires Refines(t, logs) && id in t.documents
    ensures forall v | v in t.versions && t.versions[v].document == id :: t.versions[v].version <= t.documents[id].version
  {
    assert Records(t, id, logs[id]);
    forall v | v in t.versions && t.versions[v].document == id
      ensures t.versions[v].version <= t.documents[id].version
    {
      assert SnapshotFits(t, v, id, logs[id]);
    }
  }

  // Two web updates of the same document that have read the same current row.
  ghost predicate Racing(s: State, r1: RequestId, r2: RequestId) {
    && r1 != r2 && r1 in s.requests && r2 in s.requests
    && var q1, q2 := s.requests[r1], s.requests[r2];
       && q1.op.WebUpdate? && q1.at.Current? && q2.op.WebUpdate? && q2.at.Current?
       && q1.op.document == q2.op.document && Live(s.tables, q1.op.document)
       && q1.at.row == q2.at.row == s.tables.documents[q1.op.document]
       && q1.at.name == q2.at.name == q1.at.row.name
       && !NameTaken(s.tables, q1.at.row.bucket, q1.at.row.name, {q1.op.document})
  }

  lemma BothArchive(h: Hashes, s: State, r1: RequestId, r2: RequestId, v1: VersionId, v2: VersionId)
    requires Racing(s, r1, r2) && v1 != v2 && v1 !in s.tables.versions && v2 !in s.tables.versions
    ensures var s1 := SnapshotInserted(s, r1, v1, Done);
            && Enabled(h, s, Archive(r1, v1, Done)) && s1 == Apply(h, s, Archive(r1, v1, Done))
            && Enabled(h, s1, Archive(r2, v2, Done))
            && var s2 := SnapshotInserted(s1, r2, v2, Done);
               && s2 == Apply(h, s1, Archive(r2, v2, Done))
               && s2.tables.documents == s.tables.documents
               && s2.requests == s.requests[r1 := s.requests[r1].(at := Snapped(s.requests[r1].at.name, s.requests[r1].at.content))]
                                          [r2 := s.requests[r2].(at := Snapped(s.requests[r2].at.name, s.requests[r2].at.content))]
  {
  }

  lemma BothWrite(h: Hashes, s: State, r1: RequestId, r2: RequestId, id: DocumentId)
    requires r1 != r2 && r1 in s.requests && r2 in s.requests && Live(s.tables, id)
    requires s.requests[r1].op.OnDocument() && s.requests[r1].op.document == id && s.requests[r1].at.Snapped?
    requires s.requests[r2].op.OnDocument() && s.requests[r2].op.document == id && s.requests[r2].at.Snapped?
    requires s.requests[r1].at.name == s.requests[r2].at.name == s.tables.documents[id].name
    requires !NameTaken(s.tables, s.tables.documents[id].bucket, s.tables.documents[id].name, {id})
    ensures var s1 := RowUpdated(s, r1, Done);
            && Enabled(h, s, Write(r1, Done)) && s1 == Apply(h, s, Write(r1, Done))
            && Enabled(h, s1, Write(r2, Done)) && RowUpdated(s1, r2, Done) == Apply(h, s1, Write(r2, Done))
  {
    NameStaysFree(s.tables, RowUpdated(s, r1, Done).tables, id);
  }

  /** The web update is such a call: from every state in which two of them have read the same
      current row, the step system can archive twice and write twice. */
  lemma WebUpdatesLoseAVersion(h: Hashes, s: State, logs: Logs, r1: RequestId, r2: RequestId, v1: VersionId, v2: VersionId)
    returns (s1: State, s2: State, s3: State, s4: State)
    requires Refines(s.tables, logs) && v1 != v2 && v1 !in s.tables.versions && v2 !in s.tables.versions
    requires Racing(s, r1, r2)
    ensures Enabled(h, s, Archive(r1, v1, Done)) && s1 == Apply(h, s, Archive(r1, v1, Done))
    ensures Enabled(h, s1, Archive(r2, v2, Done)) && s2 == Apply(h, s1, Archive(r2, v2, Done))
    ensures Enabled(h, s2, Write(r1, Done)) && s3 == Apply(h, s2, Write(r1, Done))
    ensures Enabled(h, s3, Write(r2, Done)) && s4 == Apply(h, s3, Write(r2, Done))
    ensures forall any: Logs :: !Refines(s4.tables, any)
  {
    var q1, q2 := s.requests[r1], s.requests[r2];
    var id, row := q1.op.document, q1.at.row;
    BothArchive(h, s, r1, r2, v1, v2);
    s1 := SnapshotInserted(s, r1, v1, Done);
    s2 := SnapshotInserted(s1, r2, v2, Done);
    NameStaysFree(s.tables, s2.tables, id);
    BothWrite(h, s2, r1, r2, id);
    s3 := RowUpdated(s2, r1, Done);
    s4 := RowUpdated(s3, r2, Done);
    InterleavedUpdatesLoseAVersion(s.tables, logs, id, v1, v2, row.name, q1.at.content, row.name, q2.at.content);
  }

  lemma NameStaysFree(t: Tables, t': Tables, id: DocumentId)
    requires id in t.documents && t'.documents.Keys == t.documents.Keys
    requires forall d | d in t.documents ::
               t'.documents[d].name == t.documents[d].name && t'.documents[d].bucket == t.documents[d].bucket
    ensures NameTaken(t', t.documents[id].bucket, t.documents[id].name, {id})
            ==> NameTaken(t, t.documents[id].bucket, t.documents[id].name, {id})
  {
  }

  lemma OneRowIsALog(c: Content)
    ensures Refines(Tables(map["d" := Document("b", "n", c, 1, false)], map[]), map["d" := [c]])
  {
    EmptyRefines();
    InsertDocumentStartsLog(EMPTY, map[], "d", "b", "n", c);
    assert InsertDocument(EMPTY, "d", "b", "n", c) == Tables(map["d" := Document("b", "n", c, 1, false)], map[]);
  }

  /** And such a state is reached: a run with two web updates ends in tables that no log fits. */
  lemma WebRunLosesAVersion(h: Hashes) returns (s: State)
    ensures Reached(h, ANY, s) && forall any: Logs :: !Refines(s.tables, any)
  {
    var s0 := RacingReached(h);
    OneRowIsALog(Old(h));
    var s1, s2, s3, s4 := WebUpdatesLoseAVersion(h, s0, map["d" := [Old(h)]], 1, 2, "v1", "v2");
    var t1 := ReachedNext(h, ANY, s0, Archive(1, "v1", Done));
    var t2 := ReachedNext(h, ANY, t1, Archive(2, "v2", Done));
    var t3 := ReachedNext(h, ANY, t2, Write(1, Done));
    s := ReachedNext(h, ANY, t3, Write(2, Done));
  }

  /** The lock does not make the name form of the API update keep the content: a run of API events
      alone reaches a state in which request 1 has loaded version 1, version 2 has been written
      since, and the write that is next brings the content of version 1 back. */
  lemma NameUpdateCanRevertContent(h: Hashes) returns (s: State)
    ensures Reached(h, API, s) && Enabled(h, s, Write(1, Done)) && EffectiveWrite(s, Write(1, Done))
    ensures s.requests[1].op == Update("d", "x", None)
    ensures s.tables.documents["d"].content == New(h) != Old(h)
    ensures Apply(h, s, Write(1, Done)).tables.documents["d"].content == Old(h)
  {
    s := LateUpdateReached(h);
  }
}
