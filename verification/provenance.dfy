/** What an update appends to the history of its document, for each kind of request. */
module Provenance {
  import opened Documents
  import opened History
  import opened ContentAddress
  import opened Cluster
  import opened Lossless

  ghost predicate EffectiveWrite(s: State, e: Event) {
    && e.Write? && e.outcome.Applied() && e.r in s.requests && s.requests[e.r].at.Snapped?
    && s.requests[e.r].op.OnDocument() && Live(s.tables, s.requests[e.r].op.document)
  }

  lemma WriteAppendsOneContent(h: Hashes, s: State, logs: Logs, e: Event)
    requires Inv(h, s, logs) && Enabled(h, s, e) && EffectiveWrite(s, e)
    ensures var d := s.requests[e.r].op.document;
            && d in logs
            && LogsAfter(s, logs, e) == logs[d := logs[d] + [s.requests[e.r].at.content]]
            && Apply(h, s, e).tables.documents[d].content == s.requests[e.r].at.content
            && Apply(h, s, e).tables.documents[d].version == s.tables.documents[d].version + 1
  {
    assert RequestFits(h, s.tables, logs, s.requests[e.r]);
  }

  /** c is what a row says of a file: the type detected, the length, the digest, and the key that the
      digest gives. */
  ghost predicate Describes(h: Hashes, c: Content, f: File) {
    && c.contentType == f.contentType
    && c.size == |f.bytes|
    && c.checksum == h.digest(f.bytes)
    && c.storageKey == StorageKey(h.digest(f.bytes))
  }

  /** An upload starts the log of its document with the content of its file. */
  lemma UploadStartsWithItsFile(h: Hashes, s: State, logs: Logs, e: Event)
    requires Inv(h, s, logs) && Enabled(h, s, e) && e.Create? && e.outcome.Applied()
    ensures s.requests[e.r].op.Upload? && e.document !in logs
    ensures var f := s.requests[e.r].op.file;
            LogsAfter(s, logs, e)
            == logs[e.document := [Content(f.contentType, |f.bytes|, h.digest(f.bytes), StorageKey(h.digest(f.bytes)))]]
  {
    assert RequestFits(h, s.tables, logs, s.requests[e.r]);
  }

  /** A new file appends the content of that file: its type, length and digest, and the key. */
  lemma FileUpdateAppendsItsFile(h: Hashes, s: State, logs: Logs, e: Event)
    requires Inv(h, s, logs) && Enabled(h, s, e) && EffectiveWrite(s, e)
    requires s.requests[e.r].op.Update? && s.requests[e.r].op.newFile.Some?
    ensures var op, f := s.requests[e.r].op, s.requests[e.r].op.newFile.value;
            && op.document in logs
            && LogsAfter(s, logs, e)
               == logs[op.document := logs[op.document]
                                      + [Content(f.contentType, |f.bytes|, h.digest(f.bytes), StorageKey(h.digest(f.bytes)))]]
  {
    assert RequestFits(h, s.tables, logs, s.requests[e.r]);
  }

  /** An update without a file appends a content that was current when the request was loaded:
      entry `loaded.version` of the log. It need not be the last one any more. */
  lemma NoFileUpdateAppendsTheLoadedVersion(h: Hashes, s: State, logs: Logs, e: Event)
    requires Inv(h, s, logs) && Enabled(h, s, e) && EffectiveWrite(s, e)
    requires s.requests[e.r].op.Update? && s.requests[e.r].op.newFile.None?
    ensures var q := s.requests[e.r];
            && q.loaded.Some? && q.op.document in logs
            && 1 <= q.loaded.value.version <= |logs[q.op.document]|
            && LogsAfter(s, logs, e)
               == logs[q.op.document := logs[q.op.document] + [logs[q.op.document][q.loaded.value.version - 1]]]
  {
    assert RequestFits(h, s.tables, logs, s.requests[e.r]);
  }

  /** Restoring snapshot n makes entry n of the log current again, keeps every earlier entry and
      adds one version. */
  lemma RestoreAppendsTheArchivedVersion(h: Hashes, s: State, logs: Logs, e: Event)
    requires Inv(h, s, logs) && Enabled(h, s, e) && EffectiveWrite(s, e) && s.requests[e.r].op.Restore?
    ensures var op := s.requests[e.r].op;
            && op.document in logs && op.target in s.tables.versions
            && var n := s.tables.versions[op.target].version;
               var after := Apply(h, s, e).tables.documents[op.document];
               && 1 <= n <= |logs[op.document]|
               && LogsAfter(s, logs, e) == logs[op.document := logs[op.document] + [logs[op.document][n - 1]]]
               && after.content == logs[op.document][n - 1]
               && after.version == |logs[op.document]| + 1
  {
    TargetIsAnEntry(h, s.tables, logs, s.requests[e.r]);
    WriteAppendsOneContent(h, s, logs, e);
  }

  lemma TargetIsAnEntry(h: Hashes, t: Tables, logs: Logs, q: Request)
    requires Refines(t, logs) && RequestFits(h, t, logs, q) && q.op.Restore? && q.at.Snapped?
    ensures var op := q.op;
            && op.document in logs && op.document in t.documents && op.target in t.versions
            && t.documents[op.document].version == |logs[op.document]|
            && var n := t.versions[op.target].version;
               1 <= n <= |logs[op.document]| && q.at.content == logs[op.document][n - 1]
  {
    assert Records(t, q.op.document, logs[q.op.document]);
    assert SnapshotFits(t, q.op.target, q.op.document, logs[q.op.document]);
  }

  /** The name form of the API update (no file) keeps the content current exactly when the content
      it loaded before taking the lock is still the current one. */
  lemma NameUpdateKeepsContentExactlyWhenFresh(h: Hashes, s: State, logs: Logs, e: Event)
    requires Inv(h, s, logs) && Enabled(h, s, e) && EffectiveWrite(s, e)
    requires s.requests[e.r].op.Update? && s.requests[e.r].op.newFile.None?
    ensures var q := s.requests[e.r];
            && q.loaded.Some?
            && (Apply(h, s, e).tables.documents[q.op.document].content == s.tables.documents[q.op.document].content
                <==> q.loaded.value.content == s.tables.documents[q.op.document].content)
  {
    assert RequestFits(h, s.tables, logs, s.requests[e.r]);
  }

  /** Every other event leaves all logs as they are, except the INSERT that starts one. */
  lemma NothingElseAppends(h: Hashes, s: State, logs: Logs, e: Event)
    requires Inv(h, s, logs) && Enabled(h, s, e) && ApiEvent(e) && !EffectiveWrite(s, e)
    ensures forall d | d in logs :: d in LogsAfter(s, logs, e) && LogsAfter(s, logs, e)[d] == logs[d]
    ensures forall d | d in LogsAfter(s, logs, e) && d !in logs ::
              e.Create? && d == e.document && |LogsAfter(s, logs, e)[d]| == 1
  {
    if e.Write? && e.r in s.requests {
      assert RequestFits(h, s.tables, logs, s.requests[e.r]);
    }
  }

  // ── Over whole runs ───────────────────────────────────────────────────────────

  /** One of the first i events is the arrival of a file with this content. */
  ghost predicate Brought(h: Hashes, events: seq<Event>, i: nat, c: Content)
    requires i <= |events|
  {
    exists j | 0 <= j < i :: events[j].Arrive? && FileOf(events[j].op).Some? && Describes(h, c, FileOf(events[j].op).value)
  }

  ghost predicate FilesBrought(h: Hashes, s: State, events: seq<Event>, i: nat)
    requires i <= |events|
  {
    forall r | r in s.requests && FileOf(s.requests[r].op).Some? ::
      Brought(h, events, i, ContentOf(h.digest, FileOf(s.requests[r].op).value))
  }

  ghost predicate VersionsBrought(h: Hashes, logs: Logs, events: seq<Event>, i: nat)
    requires i <= |events|
  {
    forall d, c | d in logs && c in logs[d] :: Brought(h, events, i, c)
  }

  lemma RequestsKeepTheirOperation(h: Hashes, s: State, e: Event, r: RequestId)
    requires Enabled(h, s, e) && r in Apply(h, s, e).requests && !(e.Arrive? && r == e.r)
    ensures r in s.requests && s.requests[r].op == Apply(h, s, e).requests[r].op
  {
  }

  // c is an entry of some log, or the content of a file that a request in flight brought.
  ghost predicate Known(h: Hashes, s: State, logs: Logs, c: Content) {
    || (exists d :: d in logs && c in logs[d])
    || (exists r :: r in s.requests && FileOf(s.requests[r].op).Some? && c == ContentOf(h.digest, FileOf(s.requests[r].op).value))
  }

  lemma WrittenContentIsKnown(h: Hashes, s: State, logs: Logs, r: RequestId)
    requires Faithful(h, s, logs) && r in s.requests && s.requests[r].at.Snapped? && s.requests[r].op.OnDocument()
    ensures Known(h, s, logs, s.requests[r].at.content)
  {
    var q := s.requests[r];
    assert RequestFits(h, s.tables, logs, q);
    if q.op.Restore? {
      TargetIsAnEntry(h, s.tables, logs, q);
    } else {
      assert FileOf(q.op).None? ==> q.at.content in logs[q.op.document];
    }
  }

  lemma WrittenEntryIsKnown(h: Hashes, s: State, logs: Logs, e: Event, d: DocumentId, c: Content)
    requires Inv(h, s, logs) && Enabled(h, s, e) && EffectiveWrite(s, e)
    requires d in LogsAfter(s, logs, e) && c in LogsAfter(s, logs, e)[d]
    ensures Known(h, s, logs, c)
  {
    WriteAppendsOneContent(h, s, logs, e);
    WrittenContentIsKnown(h, s, logs, e.r);
  }

  lemma OtherEntryIsKnown(h: Hashes, s: State, logs: Logs, e: Event, d: DocumentId, c: Content)
    requires Inv(h, s, logs) && Enabled(h, s, e) && ApiEvent(e) && !EffectiveWrite(s, e)
    requires d in LogsAfter(s, logs, e) && c in LogsAfter(s, logs, e)[d]
    ensures Known(h, s, logs, c)
  {
    NothingElseAppends(h, s, logs, e);
    if d !in logs {
      assert RequestFits(h, s.tables, logs, s.requests[e.r]);
    }
  }

  lemma BroughtEarlier(h: Hashes, events: seq<Event>, i: nat, c: Content)
    requires i < |events| && Brought(h, events, i, c)
    ensures Brought(h, events, i + 1, c)
  {
  }

  lemma FilesStayBrought(h: Hashes, s: State, events: seq<Event>, i: nat)
    requires i < |events| && FilesBrought(h, s, events, i) && Enabled(h, s, events[i])
    ensures FilesBrought(h, Apply(h, s, events[i]), events, i + 1)
  {
    var e, s' := events[i], Apply(h, s, events[i]);
    forall r | r in s'.requests && FileOf(s'.requests[r].op).Some?
      ensures Brought(h, events, i + 1, ContentOf(h.digest, FileOf(s'.requests[r].op).value))
    {
      if e.Arrive? && r == e.r {
        assert s'.requests[r].op == events[i].op;
      } else {
        RequestsKeepTheirOperation(h, s, e, r);
        BroughtEarlier(h, events, i, ContentOf(h.digest, FileOf(s'.requests[r].op).value));
      }
    }
  }

  lemma BroughtLater(h: Hashes, s: State, logs: Logs, events: seq<Event>, i: nat, c: Content)
    requires i < |events| && VersionsBrought(h, logs, events, i) && FilesBrought(h, s, events, i) && Known(h, s, logs, c)
    ensures Brought(h, events, i + 1, c)
  {
    BroughtEarlier(h, events, i, c);
  }

  /** No content is invented or mixed up: in every API run each version of each document, whatever
      restores, stale updates and failures there were, is exactly some file that a request brought,
      with that file's type, size, checksum and key. */
  lemma {:induction false} EveryVersionIsAFileThatArrived(h: Hashes, states: seq<State>, events: seq<Event>, i: nat)
    requires ApiRun(h, states, events) && i < |states|
    ensures VersionsBrought(h, LogsAt(states, events, i), events, i)
    ensures FilesBrought(h, states[i], events, i)
  {
    if i > 0 {
      EveryVersionIsAFileThatArrived(h, states, events, i - 1);
      ApiRunsKeepInv(h, states, events, i - 1);
      FilesStayBrought(h, states[i - 1], events, i - 1);
      var logs := LogsAt(states, events, i - 1);
      forall d, c | d in LogsAt(states, events, i) && c in LogsAt(states, events, i)[d]
        ensures Brought(h, events, i, c)
      {
        if EffectiveWrite(states[i - 1], events[i - 1]) {
          WrittenEntryIsKnown(h, states[i - 1], logs, events[i - 1], d, c);
        } else {
          OtherEntryIsKnown(h, states[i - 1], logs, events[i - 1], d, c);
        }
        BroughtLater(h, states[i - 1], logs, events, i - 1, c);
      }
    }
  }
}
