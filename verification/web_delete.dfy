/** The document deletion of the web interface: it reads the row, soft-deletes it, and removes the
    blob of the key it has read. Nothing groups the three. */
module WebDelete {
  import opened Documents
  import opened History
  import opened ContentAddress
  import opened Cluster
  import opened References
  import opened Traces

  // The state after the deletion and the removal; the key was read some time before.
  function WebDeleted(s: State, id: DocumentId, key: string): State {
    s.(tables := MarkDeleted(s.tables, id), blobs := s.blobs - {key})
  }

  lemma WebDeleteIsTwoEvents(h: Hashes, s: State, id: DocumentId, key: string)
    ensures WebDeleted(s, id, key) == Apply(h, Apply(h, s, Delete(id)), RemoveBlob(key))
  {
  }

  ghost predicate OtherRowNames(t: Tables, id: DocumentId, key: string) {
    exists d :: d != id && Live(t, d) && t.documents[d].content.storageKey == key
  }

  ghost predicate SnapshotNamesKey(t: Tables, key: string) {
    exists v :: v in t.versions && t.versions[v].content.storageKey == key
  }

  ghost predicate RequestNamesKey(s: State, key: string) {
    exists r, c :: r in s.requests && Carries(s.requests[r], c) && c.storageKey == key
  }

  // Rows and snapshots alone.
  ghost predicate RowsResolve(h: Hashes, s: State) {
    forall c | LiveNames(s.tables, c) || SnapshotNames(s.tables, c) :: Backed(h.digest, s.blobs, c)
  }

  // Deleting a row takes away its own name for its content and no other.
  lemma NamesAfterDelete(t: Tables, id: DocumentId, c: Content)
    ensures SnapshotNames(MarkDeleted(t, id), c) <==> SnapshotNames(t, c)
    ensures LiveNames(MarkDeleted(t, id), c) <==> exists d :: d != id && Live(t, d) && t.documents[d].content == c
  {
    var t' := MarkDeleted(t, id);
    if LiveNames(t', c) {
      var d :| Live(t', d) && t'.documents[d].content == c;
      assert d != id && Live(t, d) && t.documents[d].content == c;
    }
    if d :| d != id && Live(t, d) && t.documents[d].content == c {
      assert Live(t', d) && t'.documents[d].content == c;
    }
  }

  /** What the rows and snapshots name still resolves after a web delete exactly when no other live
      row and no snapshot names the key that it removes. */
  lemma RowsResolveAfterWebDeleteExactlyWhen(h: Hashes, s: State, id: DocumentId, key: string)
    requires RowsResolve(h, s)
    ensures RowsResolve(h, WebDeleted(s, id, key))
            <==> !OtherRowNames(s.tables, id, key) && !SnapshotNamesKey(s.tables, key)
  {
    var after := WebDeleted(s, id, key);
    forall c
      ensures LiveNames(after.tables, c) <==> exists d :: d != id && Live(s.tables, d) && s.tables.documents[d].content == c
      ensures SnapshotNames(after.tables, c) <==> SnapshotNames(s.tables, c)
      ensures LiveNames(after.tables, c) ==> LiveNames(s.tables, c)
    {
      NamesAfterDelete(s.tables, id, c);
    }
    if OtherRowNames(s.tables, id, key) {
      var d :| d != id && Live(s.tables, d) && s.tables.documents[d].content.storageKey == key;
      assert LiveNames(after.tables, s.tables.documents[d].content);
      assert !Backed(h.digest, after.blobs, s.tables.documents[d].content);
    } else if SnapshotNamesKey(s.tables, key) {
      var v :| v in s.tables.versions && s.tables.versions[v].content.storageKey == key;
      assert SnapshotNames(after.tables, s.tables.versions[v].content);
      assert !Backed(h.digest, after.blobs, s.tables.versions[v].content);
    } else {
      forall c | LiveNames(after.tables, c) || SnapshotNames(after.tables, c)
        ensures Backed(h.digest, after.blobs, c)
      {
        assert Backed(h.digest, s.blobs, c);
        assert c.storageKey != key;
      }
    }
  }

  lemma RequestsResolve(h: Hashes, s: State, s': State, key: string)
    requires Resolves(h, s) && s'.blobs == s.blobs - {key} && s'.requests == s.requests
    ensures (forall r, c | r in s'.requests && Carries(s'.requests[r], c) :: Backed(h.digest, s'.blobs, c))
            <==> !RequestNamesKey(s, key)
  {
    forall r, c | r in s.requests && Carries(s.requests[r], c)
      ensures Backed(h.digest, s.blobs, c)
    {
      assert Names(s, c);
    }
    if RequestNamesKey(s, key) {
      var r, c :| r in s.requests && Carries(s.requests[r], c) && c.storageKey == key;
      assert r in s'.requests && Carries(s'.requests[r], c) && !Backed(h.digest, s'.blobs, c);
    } else {
      forall r, c | r in s'.requests && Carries(s'.requests[r], c)
        ensures Backed(h.digest, s'.blobs, c)
      {
        assert Backed(h.digest, s.blobs, c) && c.storageKey != key;
      }
    }
  }

  /** Every reference still resolves after a web delete exactly when no other live row, no snapshot
      and no request in flight names the key that it removes. The key is the one that was read before
      the deletion: after an update in between it is no longer the one in the row. */
  lemma WebDeleteIsHarmlessExactlyWhen(h: Hashes, s: State, id: DocumentId, key: string)
    requires Resolves(h, s)
    ensures Resolves(h, WebDeleted(s, id, key))
            <==> !OtherRowNames(s.tables, id, key) && !SnapshotNamesKey(s.tables, key) && !RequestNamesKey(s, key)
  {
    var after := WebDeleted(s, id, key);
    forall c | LiveNames(s.tables, c) || SnapshotNames(s.tables, c)
      ensures Backed(h.digest, s.blobs, c)
    {
      assert Names(s, c);
    }
    RowsResolveAfterWebDeleteExactlyWhen(h, s, id, key);
    RequestsResolve(h, s, after, key);
    assert Addressed(h.digest, after.blobs);
    NamesAreRowsAndRequests(h, after);
  }

  lemma NamesAreRowsAndRequests(h: Hashes, s: State)
    ensures (forall c | Names(s, c) :: Backed(h.digest, s.blobs, c))
            <==> RowsResolve(h, s) && forall r, c | r in s.requests && Carries(s.requests[r], c) :: Backed(h.digest, s.blobs, c)
  {
    if forall c | Names(s, c) :: Backed(h.digest, s.blobs, c) {
      forall c | LiveNames(s.tables, c) || SnapshotNames(s.tables, c)
        ensures Backed(h.digest, s.blobs, c)
      {
        assert Names(s, c);
      }
      forall r, c | r in s.requests && Carries(s.requests[r], c)
        ensures Backed(h.digest, s.blobs, c)
      {
        assert Names(s, c);
      }
    }
  }

  lemma KeptSnapshotDangles(h: Hashes, s: State, id: DocumentId, v: VersionId)
    requires v in s.tables.versions
    ensures var after := WebDeleted(s, id, s.tables.versions[v].content.storageKey);
            && v in after.tables.versions && after.tables.versions[v] == s.tables.versions[v]
            && s.tables.versions[v].content.storageKey !in after.blobs && !RowsResolve(h, after)
  {
    var c := s.tables.versions[v].content;
    var after := WebDeleted(s, id, c.storageKey);
    assert SnapshotNames(after.tables, c) && !Backed(h.digest, after.blobs, c);
  }

  /** A document whose current content is also that of an earlier version, as after every restore,
      loses that version in a web delete: the snapshot stays and its key no longer resolves. */
  lemma WebDeleteAfterRestoreDangles(h: Hashes, s: State, logs: Logs, id: DocumentId, n: nat)
    requires Resolves(h, s) && Refines(s.tables, logs) && Live(s.tables, id)
    requires 1 <= n < s.tables.documents[id].version
    requires logs[id][n - 1] == s.tables.documents[id].content
    ensures var after := WebDeleted(s, id, s.tables.documents[id].content.storageKey);
            && Resolves(h, s.(tables := MarkDeleted(s.tables, id))) && !Resolves(h, after)
            && SnapshotNames(after.tables, logs[id][n - 1]) && !RowsResolve(h, after)
  {
    var v := SnapshotOfVersion(s.tables, logs, id, n);
    var after := WebDeleted(s, id, s.tables.documents[id].content.storageKey);
    KeptSnapshotDangles(h, s, id, v);
    assert SnapshotNames(after.tables, after.tables.versions[v].content);
    if Resolves(h, after) {
      NamesAreRowsAndRequests(h, after);
    }
    DeletionAloneResolves(h, s, id);
  }

  lemma SnapshotOfVersion(t: Tables, logs: Logs, id: DocumentId, n: nat) returns (v: VersionId)
    requires Refines(t, logs) && id in t.documents && 1 <= n < t.documents[id].version
    ensures id in logs && n <= |logs[id]|
    ensures v in t.versions && t.versions[v].document == id && t.versions[v].content == logs[id][n - 1]
  {
    assert Records(t, id, logs[id]);
    assert Archived(t, id, n);
    v :| v in t.versions && t.versions[v].document == id && t.versions[v].version == n;
    assert SnapshotFits(t, v, id, logs[id]);
  }

  lemma DeletionAloneResolves(h: Hashes, s: State, id: DocumentId)
    requires Resolves(h, s)
    ensures Resolves(h, s.(tables := MarkDeleted(s.tables, id)))
  {
    var deleted := s.(tables := MarkDeleted(s.tables, id));
    forall c | Names(deleted, c)
      ensures Backed(h.digest, deleted.blobs, c)
    {
      NamesAfterDelete(s.tables, id, c);
      assert Names(s, c);
    }
  }

  lemma WebDeletes(h: Hashes, c: Course, s: State, id: DocumentId, key: string) returns (after: State)
    requires Reached(h, c, s) && !c.api
    ensures Reached(h, c, after) && after == WebDeleted(s, id, key)
  {
    var deleted := ReachedNext(h, c, s, Delete(id));
    after := ReachedNext(h, c, deleted, RemoveBlob(key));
    WebDeleteIsTwoEvents(h, s, id, key);
  }

  /** A run with an upload, an update, a restore of the first version and a web delete: at its end the
      snapshot of the first version is left without its file. */
  lemma RestoreThenWebDeleteDangles(h: Hashes) returns (s: State, after: State)
    ensures Reached(h, API, s) && Live(s.tables, "d") && s.tables.documents["d"].version == 3
    ensures after == WebDeleted(s, "d", s.tables.documents["d"].content.storageKey) && Reached(h, ANY, after)
    ensures "v1" in after.tables.versions && after.tables.versions["v1"].content.storageKey !in after.blobs
    ensures !RowsResolve(h, after)
  {
    s := RestoredReached(h);
    ReachedVia(h, API, s);
    KeptSnapshotDangles(h, s, "d", "v1");
    after := WebDeletes(h, ANY, s, "d", s.tables.documents["d"].content.storageKey);
  }

  /** Without any restore, in one run: the web delete reads the key of version 1, an update writes
      version 2, and the removal that follows takes away the file of the snapshot just made. */
  lemma UpdateDuringWebDeleteDangles(h: Hashes) returns (read: State, s: State, after: State)
    ensures Reached(h, API, read) && Live(read.tables, "d") && read.tables.documents["d"].version == 1
    ensures Reached(h, Course(true, read), s) && Live(s.tables, "d") && s.tables.documents["d"].version == 2
    ensures after == WebDeleted(s, "d", read.tables.documents["d"].content.storageKey)
    ensures Reached(h, Course(false, read), after)
    ensures "v1" in after.tables.versions && after.tables.versions["v1"].content.storageKey !in after.blobs
    ensures !RowsResolve(h, after)
  {
    read := UploadReached(h, true);
    ReachedVia(h, API, read);
    s := UpdatesUploaded(h, Course(true, read), read);
    ReachedVia(h, Course(true, read), s);
    KeptSnapshotDangles(h, s, "d", "v1");
    after := WebDeletes(h, Course(false, read), s, "d", read.tables.documents["d"].content.storageKey);
  }
}
