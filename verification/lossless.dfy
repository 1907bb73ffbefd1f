/** Document history under interleaving: every API run refines an append-only log of contents
    per document, whatever statements fail and whatever deletes and renames run in between. */
module Lossless {
  import opened Documents
  import opened History
  import opened Cluster
  import opened MutualExclusion

  // The row a request read earlier was some version of the document.
  ghost predicate WasVersion(row: Document, log: Log) {
    1 <= row.version <= |log| && row.content == log[row.version - 1]
  }

  /** Where the content that a request is going to write comes from. */
  ghost predicate Justified(h: Hashes, t: Tables, q: Request, content: Content) {
    match q.op
    case Upload(_, _, f) => content == ContentOf(h.digest, f)
    case Update(_, _, Some(f)) => content == ContentOf(h.digest, f)
    case Update(_, _, None) => q.loaded.Some? && content == q.loaded.value.content
    case Restore(_, target) => target in t.versions && content == t.versions[target].content
    case _ => false
  }

  ghost predicate PositionFits(h: Hashes, t: Tables, q: Request)
    requires q.op.OnDocument() ==> q.op.document in t.documents
  {
    match q.at
    case Fetched(v) => q.op.Restore? && q.op.target in t.versions && v == t.versions[q.op.target]
    case Stored(content) => q.op.Upload? && Justified(h, t, q, content)
    case Ready(_, content) => q.op.OnDocument() && Justified(h, t, q, content)
    case Current(_, content, row) =>
      && q.op.OnDocument() && Justified(h, t, q, content)
      && row.version == t.documents[q.op.document].version && row.content == t.documents[q.op.document].content
    case Snapped(_, content) =>
      && q.op.OnDocument() && Justified(h, t, q, content)
      && Archived(t, q.op.document, t.documents[q.op.document].version)
    case Written(d, content) =>
      && d in t.documents
      && (q.op.OnDocument() ==> d == q.op.document && (Live(t, d) ==> t.documents[d].content == content))
    case _ => true
  }

  ghost predicate RequestFits(h: Hashes, t: Tables, logs: Logs, q: Request) {
    && !q.op.Unlocked()
    && (q.op.OnDocument() ==>
          && q.op.document in t.documents && q.op.document in logs
          && q.loaded.Some? && WasVersion(q.loaded.value, logs[q.op.document]))
    && (q.op.Restore? ==> q.op.target in t.versions && t.versions[q.op.target].document == q.op.document)
    && PositionFits(h, t, q)
  }

  ghost predicate AllFit(h: Hashes, t: Tables, logs: Logs, requests: map<RequestId, Request>) {
    forall r | r in requests :: RequestFits(h, t, logs, requests[r])
  }

  ghost predicate Faithful(h: Hashes, s: State, logs: Logs) {
    Refines(s.tables, logs) && AllFit(h, s.tables, logs, s.requests)
  }

  ghost predicate Inv(h: Hashes, s: State, logs: Logs) {
    Safe(h, s) && Faithful(h, s, logs)
  }

  /** The abstract step: a successful UPDATE appends, a successful INSERT starts a log. */
  ghost function LogsAfter(s: State, logs: Logs, e: Event): Logs {
    match e
    case Write(r, outcome) =>
      if r in s.requests && s.requests[r].at.Snapped? && s.requests[r].op.OnDocument() && s.requests[r].op.document in logs
         && outcome.Applied() && Live(s.tables, s.requests[r].op.document)
      then var d := s.requests[r].op.document; logs[d := logs[d] + [s.requests[r].at.content]]
      else logs
    case Create(r, d, outcome) =>
      if r in s.requests && s.requests[r].at.Stored? && outcome.Applied() then logs[d := [s.requests[r].at.content]] else logs
    case _ => logs
  }

  /** Logs only grow. */
  ghost predicate Extends(logs: Logs, later: Logs) {
    forall d | d in logs :: d in later && logs[d] <= later[d]
  }

  // Everything a request remembers stays true while others work, unless they touch the row that
  // a request inside UpdateDocument relies on.
  ghost predicate Undisturbed(t: Tables, t': Tables, q: Request) {
    && t.documents.Keys <= t'.documents.Keys
    && (forall v | v in t.versions :: v in t'.versions && t'.versions[v] == t.versions[v])
    && (forall d | d in t.documents && t.documents[d].deleted :: t'.documents[d].deleted)
    && (q.op.OnDocument() && q.op.document in t.documents && (q.at.Current? || q.at.Snapped? || q.at.Written?) ==>
          && t'.documents[q.op.document].version == t.documents[q.op.document].version
          && t'.documents[q.op.document].content == t.documents[q.op.document].content)
  }

  lemma AppendExtends(logs: Logs, d: DocumentId, content: Content)
    requires d in logs
    ensures Extends(logs, logs[d := logs[d] + [content]])
  {
  }

  // Only the request itself is left to show after a write.
  lemma DoneFits(h: Hashes, t: Tables, t': Tables, logs: Logs, logs': Logs, q: Request)
    requires RequestFits(h, t, logs, q) && Extends(logs, logs')
    requires t.documents.Keys <= t'.documents.Keys && t'.versions == t.versions
    ensures RequestFits(h, t', logs', q.(at := Leaving))
    ensures q.op.Upload? ==> forall d, c | d in t'.documents :: RequestFits(h, t', logs', q.(at := Written(d, c)))
  {
  }

  lemma OnlySnapshotsGrow(t: Tables, v: VersionId, snapshot: Snapshot, q: Request)
    requires v !in t.versions
    ensures Undisturbed(t, InsertVersion(t, v, snapshot), q)
  {
  }

  lemma NewRowsDisturbNobody(t: Tables, d: DocumentId, bucket: string, name: string, content: Content, q: Request)
    requires d !in t.documents
    ensures Undisturbed(t, InsertDocument(t, d, bucket, name, content), q)
  {
  }

  lemma OnlyNamesChange(t: Tables, d: DocumentId, name: string, q: Request)
    ensures Undisturbed(t, MarkDeleted(t, d), q) && Undisturbed(t, RenameRow(t, d, name), q)
  {
  }

  lemma OtherDocumentsRest(t: Tables, d: DocumentId, name: string, content: Content, q: Request)
    requires q.op.OnDocument() && q.op.document == d ==> !q.at.Current? && !q.at.Snapped? && !q.at.Written?
    ensures Undisturbed(t, UpdateRow(t, d, name, content), q)
  {
  }

  lemma FitsFrame(h: Hashes, t: Tables, t': Tables, logs: Logs, logs': Logs, q: Request)
    requires RequestFits(h, t, logs, q) && Undisturbed(t, t', q) && Extends(logs, logs')
    ensures RequestFits(h, t', logs', q)
  {
    if q.at.Snapped? {
      var n := t.documents[q.op.document].version;
      var v :| v in t.versions && t.versions[v].document == q.op.document && t.versions[v].version == n;
      assert t'.versions[v] == t.versions[v];
      assert Archived(t', q.op.document, n);
    }
  }

  // ── Steps that leave the tables alone ─────────────────────────────────────────

  predicate TouchesTables(e: Event) {
    e.Archive? || e.Write? || e.Create? || e.Delete? || e.Rename?
  }

  lemma ArrivalFits(h: Hashes, s: State, logs: Logs, e: Event)
    requires Faithful(h, s, logs) && Enabled(h, s, e) && ApiEvent(e) && e.Arrive?
    ensures RequestFits(h, s.tables, logs, Apply(h, s, e).requests[e.r])
  {
    if e.op.OnDocument() {
      assert Records(s.tables, e.op.document, logs[e.op.document]);
    }
  }

  // Steps that compute what will be written.
  predicate Prepares(e: Event) {
    e.PutFile? || e.KeepFile? || e.FetchVersion? || e.FetchName? || e.ReadCurrent?
  }

  lemma PreparedFits(h: Hashes, s: State, logs: Logs, e: Event)
    requires Enabled(h, s, e) && Prepares(e) && RequestFits(h, s.tables, logs, s.requests[e.r])
    ensures RequestFits(h, s.tables, logs, Apply(h, s, e).requests[e.r])
  {
  }

  predicate Plain(at: Position) {
    at.Loaded? || at.Waiting? || at.Entered? || at.Leaving? || at.Closing?
  }

  lemma OtherStepsArePlain(h: Hashes, s: State, e: Event, r: RequestId)
    requires Enabled(h, s, e) && !TouchesTables(e) && r in Apply(h, s, e).requests
    requires !(e.Arrive? && r == e.r) && !(Prepares(e) && r == e.r)
    ensures r in s.requests
    ensures var q' := Apply(h, s, e).requests[r];
            q' == s.requests[r] || (Plain(q'.at) && q'.op == s.requests[r].op && q'.loaded == s.requests[r].loaded)
  {
  }

  lemma QuietlyFits(h: Hashes, s: State, logs: Logs, e: Event, r: RequestId)
    requires Faithful(h, s, logs) && Enabled(h, s, e) && ApiEvent(e) && !TouchesTables(e)
    requires r in Apply(h, s, e).requests
    ensures RequestFits(h, s.tables, logs, Apply(h, s, e).requests[r])
  {
    if e.Arrive? && r == e.r {
      ArrivalFits(h, s, logs, e);
    } else if Prepares(e) && r == e.r {
      PreparedFits(h, s, logs, e);
    } else {
      OtherStepsArePlain(h, s, e, r);
      PlainFits(h, s.tables, logs, s.requests[r], Apply(h, s, e).requests[r]);
    }
  }

  lemma PlainFits(h: Hashes, t: Tables, logs: Logs, q: Request, q': Request)
    requires RequestFits(h, t, logs, q)
    requires q' == q || (Plain(q'.at) && q'.op == q.op && q'.loaded == q.loaded)
    ensures RequestFits(h, t, logs, q')
  {
  }

  lemma QuietStep(h: Hashes, s: State, logs: Logs, e: Event)
    requires Faithful(h, s, logs) && Enabled(h, s, e) && ApiEvent(e) && !TouchesTables(e)
    ensures Faithful(h, Apply(h, s, e), logs)
  {
    var s' := Apply(h, s, e);
    TablesAfterIs(h, s, e);
    forall r | r in s'.requests
      ensures RequestFits(h, s.tables, logs, s'.requests[r])
    {
      QuietlyFits(h, s, logs, e, r);
    }
  }

  // ── Steps that write ──────────────────────────────────────────────────────────

  lemma OthersFit(h: Hashes, s: State, t': Tables, logs: Logs, logs': Logs, r: RequestId)
    requires Faithful(h, s, logs) && Extends(logs, logs')
    requires forall x | x in s.requests && x != r :: Undisturbed(s.tables, t', s.requests[x])
    ensures forall x | x in s.requests && x != r :: RequestFits(h, t', logs', s.requests[x])
  {
    forall x | x in s.requests && x != r
      ensures RequestFits(h, t', logs', s.requests[x])
    {
      FitsFrame(h, s.tables, t', logs, logs', s.requests[x]);
    }
  }

  lemma MovedFits(h: Hashes, t: Tables, logs: Logs, requests: map<RequestId, Request>, r: RequestId, q: Request)
    requires forall x | x in requests && x != r :: RequestFits(h, t, logs, requests[x])
    requires RequestFits(h, t, logs, q)
    ensures AllFit(h, t, logs, requests[r := q])
  {
  }

  // Request r moves on to `to` while the tables change from s.tables to t'.
  lemma TablesStep(h: Hashes, s: State, t': Tables, logs: Logs, logs': Logs, r: RequestId, to: Position)
    requires Faithful(h, s, logs) && r in s.requests && Refines(t', logs') && Extends(logs, logs')
    requires forall x | x in s.requests && x != r :: Undisturbed(s.tables, t', s.requests[x])
    requires RequestFits(h, t', logs', s.requests[r].(at := to))
    ensures Faithful(h, Move(s, r, to).(tables := t'), logs')
  {
    OthersFit(h, s, t', logs, logs', r);
    MovedFits(h, t', logs', s.requests, r, s.requests[r].(at := to));
  }

  lemma RowStep(h: Hashes, s: State, t': Tables, logs: Logs)
    requires Faithful(h, s, logs) && Refines(t', logs)
    requires forall r | r in s.requests :: Undisturbed(s.tables, t', s.requests[r])
    ensures Faithful(h, s.(tables := t'), logs)
  {
    forall r | r in s.requests
      ensures RequestFits(h, t', logs, s.requests[r])
    {
      FitsFrame(h, s.tables, t', logs, logs, s.requests[r]);
    }
  }

  lemma DeleteOrRenameStep(h: Hashes, s: State, logs: Logs, e: Event)
    requires Faithful(h, s, logs) && Enabled(h, s, e) && (e.Delete? || e.Rename?)
    ensures Faithful(h, Apply(h, s, e), logs)
  {
    var name := if e.Rename? then e.name else "";
    DeleteAndRenameKeepLogs(s.tables, logs, e.document, name);
    forall r | r in s.requests
      ensures Undisturbed(s.tables, Apply(h, s, e).tables, s.requests[r])
    {
      OnlyNamesChange(s.tables, e.document, name, s.requests[r]);
    }
    RowStep(h, s, Apply(h, s, e).tables, logs);
  }

  lemma CreateCore(h: Hashes, s: State, logs: Logs, r: RequestId, d: DocumentId, to: Position)
    requires Faithful(h, s, logs) && r in s.requests && s.requests[r].at.Stored? && s.requests[r].op.Upload?
    requires d !in s.tables.documents && (to == Leaving || to == Written(d, s.requests[r].at.content))
    ensures var q := s.requests[r];
            Faithful(h, Move(s, r, to).(tables := InsertDocument(s.tables, d, q.op.bucket, q.op.name, q.at.content)),
                     logs[d := [q.at.content]])
  {
    var q := s.requests[r];
    var t', logs' := InsertDocument(s.tables, d, q.op.bucket, q.op.name, q.at.content), logs[d := [q.at.content]];
    InsertDocumentStartsLog(s.tables, logs, d, q.op.bucket, q.op.name, q.at.content);
    forall x | x in s.requests
      ensures Undisturbed(s.tables, t', s.requests[x])
    {
      NewRowsDisturbNobody(s.tables, d, q.op.bucket, q.op.name, q.at.content, s.requests[x]);
    }
    DoneFits(h, s.tables, t', logs, logs', q);
    TablesStep(h, s, t', logs, logs', r, to);
  }

  lemma ArchiveCore(h: Hashes, s: State, logs: Logs, r: RequestId, v: VersionId, to: Position)
    requires Faithful(h, s, logs) && r in s.requests && s.requests[r].at.Current? && s.requests[r].op.OnDocument()
    requires v !in s.tables.versions
    requires var q := s.requests[r]; to == Leaving || to == Snapped(q.at.name, q.at.content)
    ensures var q := s.requests[r];
            var snapshot := Snapshot(q.op.document, q.at.row.version, q.at.row.content);
            Faithful(h, Move(s, r, to).(tables := InsertVersion(s.tables, v, snapshot)), logs)
  {
    var q := s.requests[r];
    var snapshot := Snapshot(q.op.document, q.at.row.version, q.at.row.content);
    assert RequestFits(h, s.tables, logs, q);
    InsertVersionKeepsLogs(s.tables, logs, v, snapshot);
    var t' := InsertVersion(s.tables, v, snapshot);
    forall x | x in s.requests
      ensures Undisturbed(s.tables, t', s.requests[x])
    {
      OnlySnapshotsGrow(s.tables, v, snapshot, s.requests[x]);
    }
    FitsFrame(h, s.tables, t', logs, logs, q);
    TablesStep(h, s, t', logs, logs, r, to);
  }

  lemma WriteLeavesOthersUndisturbed(h: Hashes, s: State, logs: Logs, r: RequestId, x: RequestId)
    requires Inv(h, s, logs) && r in s.requests && x in s.requests && r != x
    requires s.requests[r].at.Snapped? && s.requests[r].op.OnDocument()
    ensures var q := s.requests[r];
            Undisturbed(s.tables, UpdateRow(s.tables, q.op.document, q.at.name, q.at.content), s.requests[x])
  {
    assert RequestFits(h, s.tables, logs, s.requests[r]) && RequestFits(h, s.tables, logs, s.requests[x]);
    var q := s.requests[r];
    if s.requests[x].Inside() && s.requests[x].op.Key() == q.op.Key() {
      AtMostOneInside(h, s, r, x);
    }
    OtherDocumentsRest(s.tables, q.op.document, q.at.name, q.at.content, s.requests[x]);
  }

  lemma WriteCore(h: Hashes, s: State, logs: Logs, r: RequestId, to: Position)
    requires Faithful(h, s, logs) && r in s.requests && s.requests[r].at.Snapped? && s.requests[r].op.OnDocument()
    requires Live(s.tables, s.requests[r].op.document)
    requires to == Leaving || to == Written(s.requests[r].op.document, s.requests[r].at.content)
    requires var q := s.requests[r];
             forall x | x in s.requests && x != r ::
               Undisturbed(s.tables, UpdateRow(s.tables, q.op.document, q.at.name, q.at.content), s.requests[x])
    ensures var q := s.requests[r];
            && q.op.document in logs
            && Faithful(h, Move(s, r, to).(tables := UpdateRow(s.tables, q.op.document, q.at.name, q.at.content)),
                        logs[q.op.document := logs[q.op.document] + [q.at.content]])
  {
    var q := s.requests[r];
    assert RequestFits(h, s.tables, logs, q);
    UpdateAppends(s.tables, logs, q.op.document, q.at.name, q.at.content);
    AppendExtends(logs, q.op.document, q.at.content);
    var t' := UpdateRow(s.tables, q.op.document, q.at.name, q.at.content);
    var logs' := logs[q.op.document := logs[q.op.document] + [q.at.content]];
    OtherDocumentsRest(s.tables, q.op.document, q.at.name, q.at.content, q.(at := Leaving));
    DoneFits(h, s.tables, t', logs, logs', q);
    TablesStep(h, s, t', logs, logs', r, to);
  }

  // A statement that had no effect only ends the request.
  lemma GiveUp(h: Hashes, s: State, logs: Logs, r: RequestId, to: Position)
    requires Faithful(h, s, logs) && r in s.requests
    requires RequestFits(h, s.tables, logs, s.requests[r].(at := to))
    ensures Faithful(h, Move(s, r, to), logs)
  {
  }

  lemma WritingStep(h: Hashes, s: State, logs: Logs, e: Event)
    requires Inv(h, s, logs) && Enabled(h, s, e) && (e.Create? || e.Archive? || e.Write?)
    ensures Faithful(h, Apply(h, s, e), LogsAfter(s, logs, e))
  {
    var q := s.requests[e.r];
    assert RequestFits(h, s.tables, logs, q);
    if !e.outcome.Applied() {
      GiveUp(h, s, logs, e.r, Leaving);
    } else if e.Write? && !Live(s.tables, q.op.document) {
      GiveUp(h, s, logs, e.r, if e.outcome.Ok() then Written(q.op.document, q.at.content) else Leaving);
    } else if e.Create? {
      CreateCore(h, s, logs, e.r, e.document, if e.outcome.Ok() then Written(e.document, q.at.content) else Leaving);
    } else if e.Archive? {
      ArchiveCore(h, s, logs, e.r, e.versionId, if e.outcome.Ok() then Snapped(q.at.name, q.at.content) else Leaving);
    } else {
      forall x | x in s.requests && x != e.r
        ensures Undisturbed(s.tables, UpdateRow(s.tables, q.op.document, q.at.name, q.at.content), s.requests[x])
      {
        WriteLeavesOthersUndisturbed(h, s, logs, e.r, x);
      }
      WriteCore(h, s, logs, e.r, if e.outcome.Ok() then Written(q.op.document, q.at.content) else Leaving);
    }
  }

  lemma LogsOnlyGrow(h: Hashes, s: State, logs: Logs, e: Event)
    requires Refines(s.tables, logs) && Enabled(h, s, e)
    ensures Extends(logs, LogsAfter(s, logs, e))
  {
  }

  /** Simulation: every API event is one step of the abstract log, or none. */
  lemma StepRefines(h: Hashes, s: State, logs: Logs, e: Event)
    requires Inv(h, s, logs) && Enabled(h, s, e) && ApiEvent(e)
    ensures Inv(h, Apply(h, s, e), LogsAfter(s, logs, e))
    ensures Extends(logs, LogsAfter(s, logs, e))
  {
    StepKeepsSafe(h, s, e);
    LogsOnlyGrow(h, s, logs, e);
    if e.Delete? || e.Rename? {
      DeleteOrRenameStep(h, s, logs, e);
    } else if TouchesTables(e) {
      WritingStep(h, s, logs, e);
    } else {
      QuietStep(h, s, logs, e);
    }
  }

  ghost function LogsAt(states: seq<State>, events: seq<Event>, i: nat): Logs
    requires |states| == |events| + 1 && i < |states|
  {
    if i == 0 then map[] else LogsAfter(states[i - 1], LogsAt(states, events, i - 1), events[i - 1])
  }

  lemma {:induction false} ApiRunsKeepInv(h: Hashes, states: seq<State>, events: seq<Event>, i: nat)
    requires ApiRun(h, states, events) && i < |states|
    ensures Inv(h, states[i], LogsAt(states, events, i))
  {
    if i == 0 {
      EmptyRefines();
    } else {
      ApiRunsKeepInv(h, states, events, i - 1);
      StepRefines(h, states[i - 1], LogsAt(states, events, i - 1), events[i - 1]);
    }
  }

  /** The main result: at every point of every API run the rows of each document spell out one
      log, with as many entries as the version number says, and no later event ever takes an
      entry back or changes it. */
  lemma {:induction false} ApiRunsAreLossless(h: Hashes, states: seq<State>, events: seq<Event>, i: nat, j: nat)
    requires ApiRun(h, states, events) && i <= j < |states|
    ensures Refines(states[i].tables, LogsAt(states, events, i))
    ensures Extends(LogsAt(states, events, i), LogsAt(states, events, j))
    decreases j - i
  {
    ApiRunsKeepInv(h, states, events, i);
    if i < j {
      StepRefines(h, states[i], LogsAt(states, events, i), events[i]);
      assert LogsAt(states, events, i + 1) == LogsAfter(states[i], LogsAt(states, events, i), events[i]);
      ApiRunsAreLossless(h, states, events, i + 1, j);
    }
  }
}
