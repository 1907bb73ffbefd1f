/** The guarantees put together: what was uploaded can be read back. */
module Durability {
  import opened Documents
  import opened History
  import opened ContentAddress
  import opened Cluster
  import opened Lossless
  import opened Provenance
  import opened References

  /** Version n of the document, in the row if it is the current one, in a snapshot otherwise. */
  ghost predicate VersionReads(t: Tables, id: DocumentId, n: nat, c: Content)
    requires id in t.documents
  {
    if n == t.documents[id].version then t.documents[id].content == c
    else exists v :: v in t.versions && t.versions[v].document == id && t.versions[v].version == n && t.versions[v].content == c
  }

  lemma LogEntryReads(t: Tables, logs: Logs, id: DocumentId, n: nat)
    requires Refines(t, logs) && id in t.documents && 1 <= n <= t.documents[id].version
    ensures id in logs && n <= |logs[id]| && VersionReads(t, id, n, logs[id][n - 1])
  {
    assert Records(t, id, logs[id]);
    if n < t.documents[id].version {
      assert Archived(t, id, n);
      var v :| v in t.versions && t.versions[v].document == id && t.versions[v].version == n;
      assert SnapshotFits(t, v, id, logs[id]);
    }
  }

  /** In every run of API requests, at every moment, every version of every live document can be
      read, its content stands where it belongs, and the bytes stored under its key are exactly those
      of some file that a request of this run brought. */
  lemma EveryVersionCanBeReadBack(h: Hashes, states: seq<State>, events: seq<Event>, i: nat, id: DocumentId, n: nat)
    returns (c: Content, j: nat)
    requires CollisionFree(h.digest) && ApiRun(h, states, events) && i < |states|
    requires Live(states[i].tables, id) && 1 <= n <= states[i].tables.documents[id].version
    ensures VersionReads(states[i].tables, id, n, c)
    ensures j < i && events[j].Arrive? && FileOf(events[j].op).Some?
    ensures var f := FileOf(events[j].op).value;
            && c.contentType == f.contentType && c.size == |f.bytes| && c.checksum == h.digest(f.bytes)
            && |c.storageKey| == 65 && c.storageKey[2] == '/' && c.storageKey[..2] + c.storageKey[3..] == c.checksum
            && c.storageKey in states[i].blobs && states[i].blobs[c.storageKey] == f.bytes
  {
    var t, logs := states[i].tables, LogsAt(states, events, i);
    ApiRunsAreLossless(h, states, events, i, i);
    LogEntryReads(t, logs, id, n);
    c := logs[id][n - 1];
    EveryVersionIsAFileThatArrived(h, states, events, i);
    assert Brought(h, events, i, c);
    j :| 0 <= j < i && events[j].Arrive? && FileOf(events[j].op).Some? && Describes(h, c, FileOf(events[j].op).value);
    KeySpellsDigest(c.checksum);
    RunsResolve(h, states, events, i);
    VersionIsNamed(states[i], id, n, c);
    assert Backed(h.digest, states[i].blobs, c);
  }

  lemma VersionIsNamed(s: State, id: DocumentId, n: nat, c: Content)
    requires Live(s.tables, id) && VersionReads(s.tables, id, n, c)
    ensures Names(s, c)
  {
    if n == s.tables.documents[id].version {
      assert LiveNames(s.tables, c);
    } else {
      assert SnapshotNames(s.tables, c);
    }
  }
}
