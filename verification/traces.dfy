/** Runs written out step by step: the states that the counterexamples of the other modules start
    from are reached from the empty database. */
module Traces {
  import opened Common
  import opened Documents
  import opened AdvisoryLocks
  import opened Cluster

  /** What is asked of a run: that it has API events only, and a state that it passes through. */
  datatype Course = Course(api: bool, via: State)

  const API := Course(true, INITIAL)
  const ANY := Course(false, INITIAL)

  /** Some run of that course ends in s. */
  ghost predicate Reached(h: Hashes, c: Course, s: State) {
    exists states, events :: Ends(h, c, s, states, events)
  }

  ghost predicate Ends(h: Hashes, c: Course, s: State, states: seq<State>, events: seq<Event>) {
    && Run(h, states, events) && states[|events|] == s && c.via in states
    && (c.api ==> forall i | 0 <= i < |events| :: ApiEvent(events[i]))
  }

  lemma ReachedInitially(h: Hashes, api: bool)
    ensures Reached(h, Course(api, INITIAL), INITIAL)
  {
    assert Ends(h, Course(api, INITIAL), INITIAL, [INITIAL], []);
  }

  // Any state reached may be the one to remember, and API runs are runs.
  lemma ReachedVia(h: Hashes, c: Course, s: State)
    requires Reached(h, c, s)
    ensures Reached(h, c.(via := s), s) && Reached(h, c.(api := false), s)
  {
    var states, events :| Ends(h, c, s, states, events);
    assert states[|events|] in states;
    assert Ends(h, c.(via := s), s, states, events);
    assert Ends(h, c.(api := false), s, states, events);
  }

  lemma OneMore(h: Hashes, states: seq<State>, events: seq<Event>, e: Event, s': State)
    requires Run(h, states, events) && Enabled(h, states[|events|], e) && s' == Apply(h, states[|events|], e)
    ensures Run(h, states + [s'], events + [e])
  {
    forall i | 0 <= i < |events + [e]|
      ensures var all := states + [s'];
              Enabled(h, all[i], (events + [e])[i]) && all[i + 1] == Apply(h, all[i], (events + [e])[i])
    {
      if i < |events| {
        assert (states + [s'])[i] == states[i] && (events + [e])[i] == events[i];
      }
    }
  }

  lemma ReachedNext(h: Hashes, c: Course, s: State, e: Event) returns (s': State)
    requires Reached(h, c, s) && Enabled(h, s, e) && (c.api ==> ApiEvent(e))
    ensures s' == Apply(h, s, e) && Reached(h, c, s')
  {
    s' := Apply(h, s, e);
    var states, events :| Ends(h, c, s, states, events);
    OneMore(h, states, events, e, s');
    assert (states + [s'])[|events + [e]|] == s';
    assert Ends(h, c, s', states + [s'], events + [e]);
  }

  // ── Single events, by their effect ────────────────────────────────────────────

  lemma Arrives(h: Hashes, c: Course, s: State, r: RequestId, op: Operation) returns (s': State)
    requires Reached(h, c, s) && r !in s.requests && !op.Restore? && !op.WebRestore? && (c.api ==> !op.Unlocked())
    requires op.OnDocument() ==> Live(s.tables, op.document)
    ensures Reached(h, c, s') && s' == Arrived(s, r, 0, op)
  {
    s' := ReachedNext(h, c, s, Arrive(r, 0, op));
  }

  lemma Stores(h: Hashes, c: Course, s: State, r: RequestId) returns (s': State)
    requires Reached(h, c, s) && r in s.requests && s.requests[r].at.Entered? && FileOf(s.requests[r].op).Some?
    requires s.requests[r].op.OnDocument() ==> s.requests[r].loaded.Some?
    ensures Reached(h, c, s') && s' == FileStored(h, s, r)
  {
    s' := ReachedNext(h, c, s, PutFile(r));
  }

  lemma Reads(h: Hashes, c: Course, s: State, r: RequestId) returns (s': State)
    requires Reached(h, c, s) && r in s.requests && s.requests[r].at.Ready? && s.requests[r].op.OnDocument()
    ensures Reached(h, c, s') && s' == CurrentRead(s, r)
  {
    s' := ReachedNext(h, c, s, ReadCurrent(r));
  }

  lemma Creates(h: Hashes, c: Course, s: State, r: RequestId, d: DocumentId) returns (s': State)
    requires Reached(h, c, s) && r in s.requests && s.requests[r].at.Stored? && s.requests[r].op.Upload?
    requires s.tables.documents == map[]
    ensures Reached(h, c, s') && s' == RowCreated(s, r, d, Done)
  {
    s' := ReachedNext(h, c, s, Create(r, d, Done));
  }

  lemma Writes(h: Hashes, c: Course, s: State, r: RequestId) returns (s': State)
    requires Reached(h, c, s) && r in s.requests && s.requests[r].at.Snapped? && s.requests[r].op.OnDocument()
    requires s.tables.documents.Keys == {s.requests[r].op.document}
    ensures Reached(h, c, s') && s' == RowUpdated(s, r, Done)
  {
    s' := ReachedNext(h, c, s, Write(r, Done));
  }

  lemma Answers(h: Hashes, c: Course, s: State, r: RequestId) returns (s': State)
    requires Reached(h, c, s) && r in s.requests && s.requests[r].at.Written?
    ensures Reached(h, c, s') && s' == Move(s, r, Leaving)
  {
    s' := ReachedNext(h, c, s, Reread(r, true, false));
  }

  lemma GivesBack(h: Hashes, c: Course, s: State, r: RequestId) returns (s': State)
    requires Reached(h, c, s) && r in s.requests && s.requests[r].at.Leaving? && s.requests[r].session.Some?
    ensures Reached(h, c, s') && s' == Unlocked(h, s, r, true)
  {
    s' := ReachedNext(h, c, s, Unlock(r, true));
  }

  lemma Pools(h: Hashes, c: Course, s: State, r: RequestId) returns (s': State)
    requires Reached(h, c, s) && r in s.requests && s.requests[r].at.Closing? && s.requests[r].session.Some?
    ensures Reached(h, c, s') && s' == Gone(s, r)
  {
    s' := ReachedNext(h, c, s, Close(r, true));
  }

  // ── Stretches of events ───────────────────────────────────────────────────────

  /** Connecting on a session of one's own and being granted a free lock. */
  lemma TakesLock(h: Hashes, c: Course, s: State, r: RequestId, x: Session) returns (s': State)
    requires Reached(h, c, s) && r in s.requests && s.requests[r].at.Loaded? && Idle(s, x)
    requires x in s.sessions ==> s.sessions[x] == s.requests[r].node
    requires LockIdOf(h, s.requests[r]) !in s.locks
    ensures Reached(h, c, s')
    ensures s' == s.(requests := s.requests[r := s.requests[r].(session := Some(x), at := Entered)],
                     sessions := s.sessions[x := s.requests[r].node],
                     locks := s.locks[LockIdOf(h, s.requests[r]) := Hold(x, 1)])
  {
    var s1 := ReachedNext(h, c, s, Connect(r, x));
    s' := ReachedNext(h, c, s1, Grant(r));
  }

  /** Giving the lock back and the session to the pool. */
  lemma Leaves(h: Hashes, c: Course, s: State, r: RequestId) returns (s': State)
    requires Reached(h, c, s) && r in s.requests && s.requests[r].at.Leaving? && s.requests[r].session.Some?
    requires s.locks == map[LockIdOf(h, s.requests[r]) := Hold(s.requests[r].session.value, 1)]
    ensures Reached(h, c, s') && s' == s.(requests := s.requests - {r}, locks := map[])
  {
    var s1 := GivesBack(h, c, s, r);
    assert s1.locks == map[];
    s' := Pools(h, c, s1, r);
    assert s'.requests == s.requests - {r};
  }

  const OLD_FILE := File([1], "text/plain")
  const NEW_FILE := File([2, 2], "text/plain")

  function Old(h: Hashes): Content { ContentOf(h.digest, OLD_FILE) }

  function New(h: Hashes): Content { ContentOf(h.digest, NEW_FILE) }

  // One document "d" named "n" in bucket "b", at version 1.
  ghost predicate OneDocument(h: Hashes, s: State) {
    && s.tables == Tables(map["d" := Document("b", "n", Old(h), 1, false)], map[])
    && s.locks == map[] && s.sessions == map[0 := 0] && s.requests == map[]
  }

  lemma UploadReached(h: Hashes, api: bool) returns (s: State)
    ensures Reached(h, Course(api, INITIAL), s) && OneDocument(h, s)
  {
    ReachedInitially(h, api);
    var c := Course(api, INITIAL);
    var s1 := Arrives(h, c, INITIAL, 0, Upload("b", "n", OLD_FILE));
    var s2 := TakesLock(h, c, s1, 0, 0);
    var s3 := Stores(h, c, s2, 0);
    var s4 := Creates(h, c, s3, 0, "d");
    var s5 := Answers(h, c, s4, 0);
    s := Leaves(h, c, s5, 0);
  }

  // The row read, the snapshot inserted.
  lemma ArchivesCurrent(h: Hashes, c: Course, s: State, r: RequestId, v: VersionId) returns (s': State)
    requires Reached(h, c, s) && r in s.requests && s.requests[r].op.OnDocument() && s.requests[r].at.Ready?
    requires Live(s.tables, s.requests[r].op.document) && v !in s.tables.versions
    ensures Reached(h, c, s')
    ensures var q := s.requests[r];
            var row := s.tables.documents[q.op.document];
            s' == s.(requests := s.requests[r := q.(at := Snapped(q.at.name, q.at.content))],
                     tables := InsertVersion(s.tables, v, Snapshot(q.op.document, row.version, row.content)))
  {
    var s1 := Reads(h, c, s, r);
    s' := ReachedNext(h, c, s1, Archive(r, v, Done));
  }

  /** The statements of UpdateDocument and the answer. */
  lemma UpdatesRow(h: Hashes, c: Course, s: State, r: RequestId, v: VersionId) returns (s': State)
    requires Reached(h, c, s) && r in s.requests && s.requests[r].at.Ready? && s.requests[r].op.OnDocument()
    requires Live(s.tables, s.requests[r].op.document) && s.tables.documents.Keys == {s.requests[r].op.document}
    requires v !in s.tables.versions
    ensures Reached(h, c, s')
    ensures var q := s.requests[r];
            var row := s.tables.documents[q.op.document];
            s' == s.(requests := s.requests[r := q.(at := Leaving)],
                     tables := UpdateRow(InsertVersion(s.tables, v, Snapshot(q.op.document, row.version, row.content)),
                                         q.op.document, q.at.name, q.at.content))
  {
    var s1 := ArchivesCurrent(h, c, s, r, v);
    var s2 := Writes(h, c, s1, r);
    s' := Answers(h, c, s2, r);
  }

  /** UpdateDocument with a new file, from the lock to the deferred unlock. */
  lemma UpdatesWithFile(h: Hashes, c: Course, s: State, r: RequestId, v: VersionId) returns (s': State)
    requires Reached(h, c, s) && r in s.requests && s.requests[r].at.Entered? && s.requests[r].loaded.Some?
    requires s.requests[r].op.Update? && s.requests[r].op.newFile.Some? && v !in s.tables.versions
    requires Live(s.tables, s.requests[r].op.document) && s.tables.documents.Keys == {s.requests[r].op.document}
    ensures Reached(h, c, s') && s'.locks == s.locks && s'.sessions == s.sessions
    ensures s'.requests == s.requests[r := s.requests[r].(at := Leaving)]
    ensures var op, row := s.requests[r].op, s.tables.documents[s.requests[r].op.document];
            s'.tables == UpdateRow(InsertVersion(s.tables, v, Snapshot(op.document, row.version, row.content)), op.document,
                                   NewName(op, s.requests[r].loaded.value), ContentOf(h.digest, op.newFile.value))
  {
    var s1 := Stores(h, c, s, r);
    s' := UpdatesRow(h, c, s1, r, v);
  }

  /** The web update, up to the read of the current row. */
  lemma WebReads(h: Hashes, c: Course, s: State, r: RequestId) returns (s': State)
    requires Reached(h, c, s) && r in s.requests && s.requests[r].at.Entered? && s.requests[r].loaded.Some?
    requires s.requests[r].op.WebUpdate? && Live(s.tables, s.requests[r].op.document)
    ensures Reached(h, c, s') && s'.tables == s.tables
    ensures var q := s.requests[r];
            var name, content := NewName(q.op, q.loaded.value), ContentOf(h.digest, q.op.file);
            s'.requests == s.requests[r := q.(at := Current(name, content, s.tables.documents[q.op.document]))]
  {
    var s1 := Stores(h, c, s, r);
    s' := Reads(h, c, s1, r);
  }

  // Request 1 asks for a new name only and has loaded version 1; request 2 brings a new file.
  ghost predicate BothArrived(h: Hashes, s: State) {
    && s.tables == Tables(map["d" := Document("b", "n", Old(h), 1, false)], map[])
    && s.locks == map[] && s.sessions == map[0 := 0]
    && s.requests == map[1 := Request(0, Update("d", "x", None), Some(Document("b", "n", Old(h), 1, false)), None, Loaded),
                         2 := Request(0, Update("d", "", Some(NEW_FILE)), Some(Document("b", "n", Old(h), 1, false)), None, Loaded)]
  }

  lemma BothArrivedReached(h: Hashes) returns (s: State)
    ensures Reached(h, API, s) && BothArrived(h, s)
  {
    var s0 := UploadReached(h, true);
    var s1 := Arrives(h, API, s0, 1, Update("d", "x", None));
    s := Arrives(h, API, s1, 2, Update("d", "", Some(NEW_FILE)));
  }

  // The new file has been written as version 2 and request 1 still holds what it loaded.
  ghost predicate Overtaken(h: Hashes, s: State) {
    && s.tables == Tables(map["d" := Document("b", "n", New(h), 2, false)], map["v1" := Snapshot("d", 1, Old(h))])
    && s.locks == map[] && s.sessions == map[0 := 0]
    && s.requests == map[1 := Request(0, Update("d", "x", None), Some(Document("b", "n", Old(h), 1, false)), None, Loaded)]
  }

  lemma RowsAfterTheFile(old': Content, new': Content)
    ensures UpdateRow(InsertVersion(Tables(map["d" := Document("b", "n", old', 1, false)], map[]), "v1", Snapshot("d", 1, old')),
                      "d", "n", new')
            == Tables(map["d" := Document("b", "n", new', 2, false)], map["v1" := Snapshot("d", 1, old')])
  {
  }

  lemma FileLocked(h: Hashes) returns (s: State)
    ensures Reached(h, API, s) && s.requests.Keys == {1, 2}
    ensures s.requests[1] == Request(0, Update("d", "x", None), Some(Document("b", "n", Old(h), 1, false)), None, Loaded)
    ensures s.requests[2] == Request(0, Update("d", "", Some(NEW_FILE)), Some(Document("b", "n", Old(h), 1, false)), Some(0), Entered)
    ensures s.locks == map[h.lockId(DocKey("d")) := Hold(0, 1)] && s.sessions == map[0 := 0]
    ensures s.tables == Tables(map["d" := Document("b", "n", Old(h), 1, false)], map[])
  {
    var s0 := BothArrivedReached(h);
    s := TakesLock(h, API, s0, 2, 0);
  }

  lemma FileWritten(h: Hashes) returns (s: State)
    ensures Reached(h, API, s) && s.requests.Keys == {1, 2}
    ensures s.requests[2].at == Leaving && s.requests[2].session == Some(0) && s.requests[2].op.Key() == DocKey("d")
    ensures s.requests[1] == Request(0, Update("d", "x", None), Some(Document("b", "n", Old(h), 1, false)), None, Loaded)
    ensures s.locks == map[h.lockId(DocKey("d")) := Hold(0, 1)] && s.sessions == map[0 := 0]
    ensures s.tables == Tables(map["d" := Document("b", "n", New(h), 2, false)], map["v1" := Snapshot("d", 1, Old(h))])
  {
    var s1 := FileLocked(h);
    s := UpdatesWithFile(h, API, s1, 2, "v1");
    RowsAfterTheFile(Old(h), New(h));
  }

  lemma OvertakenReached(h: Hashes) returns (s: State)
    ensures Reached(h, API, s) && Overtaken(h, s)
  {
    var s1 := FileWritten(h);
    s := Leaves(h, API, s1, 2);
    assert s.requests == map[1 := s1.requests[1]];
  }

  /** The name form of the API update, about to write, in a reachable state: it has loaded version 1
      and version 2 has been written since. */
  lemma LateUpdateReached(h: Hashes) returns (s: State)
    ensures Reached(h, API, s) && Enabled(h, s, Write(1, Done))
    ensures s.requests.Keys == {1} && s.requests[1].op == Update("d", "x", None) && s.requests[1].at == Snapped("x", Old(h))
    ensures "d" in s.tables.documents && s.tables.documents["d"] == Document("b", "n", New(h), 2, false)
  {
    var s0 := OvertakenReached(h);
    var s1 := TakesLock(h, API, s0, 1, 0);
    var s2 := ReachedNext(h, API, s1, KeepFile(1));
    s := ArchivesCurrent(h, API, s2, 1, "v2");
  }

  lemma WebUpdatesArrive(h: Hashes) returns (s: State)
    ensures Reached(h, ANY, s) && s.tables == Tables(map["d" := Document("b", "n", Old(h), 1, false)], map[])
    ensures s.requests.Keys == {1, 2}
    ensures s.requests[1] == s.requests[2]
            == Request(0, WebUpdate("d", "", NEW_FILE), Some(Document("b", "n", Old(h), 1, false)), None, Entered)
  {
    var s0 := UploadReached(h, false);
    var s1 := Arrives(h, ANY, s0, 1, WebUpdate("d", "", NEW_FILE));
    s := Arrives(h, ANY, s1, 2, WebUpdate("d", "", NEW_FILE));
  }

  /** Two web updates that have both read the row of version 1. */
  lemma RacingReached(h: Hashes) returns (s: State)
    ensures Reached(h, ANY, s)
    ensures s.requests.Keys == {1, 2} && s.requests[1].op == s.requests[2].op == WebUpdate("d", "", NEW_FILE)
    ensures var row := Document("b", "n", Old(h), 1, false);
            && s.requests[1].at == s.requests[2].at == Current("n", New(h), row)
            && s.tables == Tables(map["d" := row], map[])
  {
    var s1 := WebUpdatesArrive(h);
    var s2 := WebReads(h, ANY, s1, 1);
    s := WebReads(h, ANY, s2, 2);
  }

  // ── An update that a delete overtakes ─────────────────────────────────────────

  lemma UpdateArrives(h: Hashes, c: Course, s0: State) returns (s: State)
    requires Reached(h, c, s0) && OneDocument(h, s0)
    ensures Reached(h, c, s) && s.tables == Tables(map["d" := Document("b", "n", Old(h), 1, false)], map[])
    ensures s.requests == map[2 := Request(0, Update("d", "", Some(NEW_FILE)), Some(Document("b", "n", Old(h), 1, false)),
                                           Some(0), Entered)]
    ensures s.locks == map[h.lockId(DocKey("d")) := Hold(0, 1)] && s.sessions == map[0 := 0]
  {
    var s1 := Arrives(h, c, s0, 2, Update("d", "", Some(NEW_FILE)));
    s := TakesLock(h, c, s1, 2, 0);
  }

  lemma Deletes(h: Hashes, c: Course, s: State, d: DocumentId) returns (s': State)
    requires Reached(h, c, s)
    ensures Reached(h, c, s') && s' == s.(tables := MarkDeleted(s.tables, d))
  {
    s' := ReachedNext(h, c, s, Delete(d));
  }

  lemma ArchivedReached(h: Hashes) returns (s: State)
    ensures Reached(h, API, s) && s.requests.Keys == {2} && s.requests[2].at == Snapped("n", New(h))
    ensures s.requests[2].op == Update("d", "", Some(NEW_FILE))
    ensures s.tables.documents == map["d" := Document("b", "n", Old(h), 1, false)]
  {
    var s0 := UploadReached(h, true);
    var s1 := UpdateArrives(h, API, s0);
    var s2 := Stores(h, API, s1, 2);
    s := ArchivesCurrent(h, API, s2, 2, "v1");
  }

  /** An update that has archived the current version, of a document that has been deleted since. */
  lemma OvertakenByDeleteReached(h: Hashes) returns (s: State)
    ensures Reached(h, API, s) && s.requests.Keys == {2} && s.requests[2].at == Snapped("n", New(h))
    ensures s.requests[2].op == Update("d", "", Some(NEW_FILE))
    ensures s.tables.documents == map["d" := Document("b", "n", Old(h), 1, true)]
  {
    var s0 := ArchivedReached(h);
    s := Deletes(h, API, s0, "d");
  }

  // ── A document with a past ────────────────────────────────────────────────────

  lemma UpdatesUploaded(h: Hashes, c: Course, s0: State) returns (s: State)
    requires Reached(h, c, s0) && OneDocument(h, s0)
    ensures Reached(h, c, s) && s.locks == map[] && s.sessions == map[0 := 0] && s.requests == map[]
    ensures s.tables == Tables(map["d" := Document("b", "n", New(h), 2, false)], map["v1" := Snapshot("d", 1, Old(h))])
  {
    var s1 := UpdateArrives(h, c, s0);
    var s2 := UpdatesWithFile(h, c, s1, 2, "v1");
    RowsAfterTheFile(Old(h), New(h));
    s := Leaves(h, c, s2, 2);
  }

  /** The restore of an archived version, from the lock to the deferred unlock. */
  lemma Restores(h: Hashes, c: Course, s: State, r: RequestId, v: VersionId) returns (s': State)
    requires Reached(h, c, s) && r in s.requests && s.requests[r].at.Entered? && s.requests[r].op.Restore?
    requires v !in s.tables.versions && SelectVersion(s.tables, s.requests[r].op.target, s.requests[r].op.document).Some?
    requires Live(s.tables, s.requests[r].op.document) && s.tables.documents.Keys == {s.requests[r].op.document}
    ensures Reached(h, c, s') && s'.locks == s.locks
    ensures s'.requests == s.requests[r := s.requests[r].(at := Leaving)]
    ensures var op, row := s.requests[r].op, s.tables.documents[s.requests[r].op.document];
            s'.tables == UpdateRow(InsertVersion(s.tables, v, Snapshot(op.document, row.version, row.content)), op.document,
                                   row.name, s.tables.versions[op.target].content)
  {
    var s1 := Fetches(h, c, s, r);
    s' := UpdatesRow(h, c, s1, r, v);
  }

  lemma Fetches(h: Hashes, c: Course, s: State, r: RequestId) returns (s': State)
    requires Reached(h, c, s) && r in s.requests && s.requests[r].at.Entered? && s.requests[r].op.Restore?
    requires SelectVersion(s.tables, s.requests[r].op.target, s.requests[r].op.document).Some?
    requires Live(s.tables, s.requests[r].op.document)
    ensures Reached(h, c, s')
    ensures var op, row := s.requests[r].op, s.tables.documents[s.requests[r].op.document];
            s' == Move(s, r, Ready(row.name, s.tables.versions[op.target].content))
  {
    var s1 := ReachedNext(h, c, s, FetchVersion(r));
    s' := ReachedNext(h, c, s1, FetchName(r));
  }

  lemma RestoreAsked(h: Hashes, c: Course, s: State, r: RequestId, d: DocumentId, target: VersionId) returns (s': State)
    requires Reached(h, c, s) && r !in s.requests && Live(s.tables, d) && SelectVersion(s.tables, target, d).Some?
    ensures Reached(h, c, s') && s' == Arrived(s, r, 0, Restore(d, target))
  {
    s' := ReachedNext(h, c, s, Arrive(r, 0, Restore(d, target)));
  }

  lemma RestoreArrives(h: Hashes) returns (s: State)
    ensures Reached(h, API, s)
    ensures s.tables == Tables(map["d" := Document("b", "n", New(h), 2, false)], map["v1" := Snapshot("d", 1, Old(h))])
    ensures s.requests.Keys == {3} && s.requests[3].op == Restore("d", "v1") && s.requests[3].at == Entered
  {
    var s0 := UploadReached(h, true);
    var s1 := UpdatesUploaded(h, API, s0);
    var s2 := RestoreAsked(h, API, s1, 3, "d", "v1");
    s := TakesLock(h, API, s2, 3, 0);
  }

  /** Version 3 of the document has the content of version 1 again, which a snapshot holds too. */
  lemma RestoredReached(h: Hashes) returns (s: State)
    ensures Reached(h, API, s) && "d" in s.tables.documents
    ensures s.tables.documents["d"] == Document("b", "n", Old(h), 3, false)
    ensures "v1" in s.tables.versions && s.tables.versions["v1"] == Snapshot("d", 1, Old(h))
  {
    var s0 := RestoreArrives(h);
    s := Restores(h, API, s0, 3, "v2");
  }
}
