/** A PostgreSQL cluster of TinyDM nodes as a step system. Between any two steps of one request
    every other request may run, a statement may fail with or without having taken effect, and a
    node may crash.

    The state is the two tables, the content store, the server's advisory locks, the database
    sessions and the requests in flight. One event is one statement, one storage call or one
    message to the server. Two assumptions are built in: the session that carries a request's
    advisory lock lives as long as the request does (unless its node crashes, which ends both),
    and storage.Put is one event, which module LocalStore justifies step by step. */
module Cluster {
  import opened Common
  import opened Documents
  import opened AdvisoryLocks
  import opened ContentAddress

  type NodeId = nat
  type RequestId = nat

  datatype LockKey = DocKey(document: DocumentId) | BucketKey(bucket: string)

  /** The two hash functions. Lock identifiers may collide. */
  datatype Hashes = Hashes(digest: Digest, lockId: LockKey -> LockId)

  datatype File = File(bytes: Bytes, contentType: string)

  datatype Operation =
    | Upload(bucket: string, name: string, file: File)
    | Update(document: DocumentId, name: string, newFile: Option<File>)
    | Restore(document: DocumentId, target: VersionId)
    | ReplaceMetadata(document: DocumentId)
    | WebUpdate(document: DocumentId, name: string, file: File)
    | WebRestore(document: DocumentId, target: VersionId)
  {
    // The web handlers never take the lock.
    predicate Unlocked() {
      WebUpdate? || WebRestore?
    }

    predicate OnDocument() {
      !Upload?
    }

    function Key(): LockKey {
      if Upload? then BucketKey(bucket) else DocKey(document)
    }
  }

  /** Where a request stands. `Ready` to `Written` are inside UpdateDocument. */
  datatype Position =
    | Loaded                                                        // DocumentCtx has read the row
    | Waiting                                                       // pg_advisory_lock sent
    | Entered                                                       // lock held
    | Fetched(v: Snapshot)                                          // restore: version record read
    | Stored(content: Content)                                      // upload: file stored
    | Ready(name: string, content: Content)                         // arguments of UpdateDocument fixed
    | Current(name: string, content: Content, row: Document)        // current row read
    | Snapped(name: string, content: Content)                       // snapshot inserted
    | Written(document: DocumentId, content: Content)               // the row statement answered, re-read is next
    | Leaving                                                       // deferred unlock is next
    | Closing                                                       // conn.Close is next
  {
    predicate Critical() {
      !Loaded? && !Waiting? && !Closing?
    }
  }

  datatype Request = Request(node: NodeId, op: Operation, loaded: Option<Document>,
                             session: Option<Session>, at: Position)
  {
    predicate Inside() {
      at.Critical() && !op.Unlocked()
    }
  }

  datatype State = State(tables: Tables, blobs: Blobs, locks: LockTable,
                         sessions: map<Session, NodeId>, requests: map<RequestId, Request>)

  const INITIAL := State(EMPTY, map[], map[], map[], map[])

  datatype Event =
    | Arrive(r: RequestId, node: NodeId, op: Operation)
    | Connect(r: RequestId, session: Session)
    | ConnectFails(r: RequestId)
    | Grant(r: RequestId)
    | LockFails(r: RequestId, granted: bool)
    | PutFile(r: RequestId)
    | KeepFile(r: RequestId)
    | FetchVersion(r: RequestId)
    | FetchName(r: RequestId)
    | ReadCurrent(r: RequestId)
    | Archive(r: RequestId, versionId: VersionId, outcome: Outcome)
    | Write(r: RequestId, outcome: Outcome)
    | Create(r: RequestId, document: DocumentId, outcome: Outcome)
    | Reread(r: RequestId, ok: bool, extracted: bool)
    | CommitMetadata(r: RequestId)
    | Fail(r: RequestId)
    | Unlock(r: RequestId, applied: bool)
    | Close(r: RequestId, pooled: bool)
    | Return(r: RequestId)
    | CloseIdle(session: Session)
    | Crash(node: NodeId)
    | Delete(document: DocumentId)
    | Rename(document: DocumentId, name: string)
    | RemoveBlob(key: string)

  function ContentOf(digest: Digest, f: File): Content {
    Content(f.contentType, |f.bytes|, digest(f.bytes), StorageKey(digest(f.bytes)))
  }

  function FileOf(op: Operation): Option<File> {
    match op
    case Upload(_, _, f) => Some(f)
    case Update(_, _, f) => f
    case WebUpdate(_, _, f) => Some(f)
    case _ => None
  }

  // An empty form value keeps the name read with the document.
  function NewName(op: Operation, loaded: Document): string
    requires op.Update? || op.WebUpdate?
  {
    if op.name == "" then loaded.name else op.name
  }

  predicate Idle(s: State, session: Session) {
    forall r | r in s.requests :: s.requests[r].session != Some(session)
  }

  function LockIdOf(h: Hashes, q: Request): LockId {
    h.lockId(q.op.Key())
  }

  ghost predicate Enabled(h: Hashes, s: State, e: Event) {
    match e
    case Arrive(r, node, op) =>
      && r !in s.requests
      && (op.OnDocument() && !op.WebRestore? ==> Live(s.tables, op.document))
      && (op.Restore? ==> SelectVersion(s.tables, op.target, op.document).Some?)
    case Connect(r, session) =>
      && r in s.requests && s.requests[r].at.Loaded?
      && (session in s.sessions ==> s.sessions[session] == s.requests[r].node && Idle(s, session))
    case ConnectFails(r) => r in s.requests && s.requests[r].at.Loaded?
    case Grant(r) =>
      && r in s.requests && s.requests[r].at.Waiting? && s.requests[r].session.Some?
      && Grantable(s.locks, LockIdOf(h, s.requests[r]), s.requests[r].session.value)
    case LockFails(r, granted) =>
      && r in s.requests && s.requests[r].at.Waiting? && s.requests[r].session.Some?
      && (granted ==> Grantable(s.locks, LockIdOf(h, s.requests[r]), s.requests[r].session.value))
    case PutFile(r) => r in s.requests && s.requests[r].at.Entered? && FileOf(s.requests[r].op).Some?
                       && (s.requests[r].op.OnDocument() ==> s.requests[r].loaded.Some?)
    case KeepFile(r) => r in s.requests && s.requests[r].at.Entered? && s.requests[r].loaded.Some?
                        && s.requests[r].op.Update? && s.requests[r].op.newFile.None?
    case FetchVersion(r) => r in s.requests && s.requests[r].at.Entered?
                            && (s.requests[r].op.Restore? || s.requests[r].op.WebRestore?)
    case FetchName(r) => r in s.requests && s.requests[r].at.Fetched? && s.requests[r].op.OnDocument()
    case ReadCurrent(r) => r in s.requests && s.requests[r].at.Ready? && s.requests[r].op.OnDocument()
    case Archive(r, versionId, _) => r in s.requests && s.requests[r].at.Current? && s.requests[r].op.OnDocument()
                                     && versionId !in s.tables.versions
    case Write(r, outcome) =>
      && r in s.requests && s.requests[r].at.Snapped? && s.requests[r].op.OnDocument()
      && (outcome.Applied() && Live(s.tables, s.requests[r].op.document) ==>
            !NameTaken(s.tables, s.tables.documents[s.requests[r].op.document].bucket,
                       s.requests[r].at.name, {s.requests[r].op.document}))
    case Create(r, document, outcome) =>
      && r in s.requests && s.requests[r].at.Stored? && s.requests[r].op.Upload?
      && document !in s.tables.documents
      && (outcome.Applied() ==> !NameTaken(s.tables, s.requests[r].op.bucket, s.requests[r].op.name, {}))
    case Reread(r, _, _) => r in s.requests && s.requests[r].at.Written?
    case CommitMetadata(r) => r in s.requests && s.requests[r].at.Entered? && s.requests[r].op.ReplaceMetadata?
    case Fail(r) => r in s.requests && s.requests[r].at.Critical()
    case Unlock(r, _) => r in s.requests && s.requests[r].at.Leaving? && s.requests[r].session.Some?
    case Close(r, _) => r in s.requests && s.requests[r].at.Closing? && s.requests[r].session.Some?
    case Return(r) => r in s.requests && s.requests[r].at.Leaving? && s.requests[r].session.None?
    case CloseIdle(session) => session in s.sessions && Idle(s, session)
    case Crash(_) => true
    case Delete(_) => true
    case Rename(document, name) =>
      Live(s.tables, document) ==>
        !NameTaken(s.tables, s.tables.documents[document].bucket, name, {document})
    case RemoveBlob(_) => true
  }

  function Move(s: State, r: RequestId, to: Position): State
    requires r in s.requests
  {
    s.(requests := s.requests[r := s.requests[r].(at := to)])
  }

  // ── The effect of each event ──────────────────────────────────────────────────

  function Arrived(s: State, r: RequestId, node: NodeId, op: Operation): State {
    var loaded := if op.OnDocument() then SelectDocument(s.tables, op.document) else None;
    s.(requests := s.requests[r := Request(node, op, loaded, None, if op.Unlocked() then Entered else Loaded)])
  }

  function Connected(s: State, r: RequestId, session: Session): State
    requires r in s.requests
  {
    s.(requests := s.requests[r := s.requests[r].(session := Some(session), at := Waiting)],
       sessions := s.sessions[session := s.requests[r].node])
  }

  function Gone(s: State, r: RequestId): State {
    s.(requests := s.requests - {r})
  }

  function Granted(h: Hashes, s: State, r: RequestId, to: Position): State
    requires r in s.requests && s.requests[r].session.Some?
  {
    Move(s, r, to).(locks := Acquire(s.locks, LockIdOf(h, s.requests[r]), s.requests[r].session.value))
  }

  function FileStored(h: Hashes, s: State, r: RequestId): State
    requires r in s.requests && FileOf(s.requests[r].op).Some?
    requires s.requests[r].op.OnDocument() ==> s.requests[r].loaded.Some?
  {
    var q := s.requests[r];
    var file := FileOf(q.op).value;
    var content := ContentOf(h.digest, file);
    Move(s, r, if q.op.Upload? then Stored(content) else Ready(NewName(q.op, q.loaded.value), content)).(
      blobs := PutBlob(h.digest, s.blobs, file.bytes))
  }

  function FileKept(s: State, r: RequestId): State
    requires r in s.requests && s.requests[r].op.Update? && s.requests[r].loaded.Some?
  {
    var q := s.requests[r];
    Move(s, r, Ready(NewName(q.op, q.loaded.value), q.loaded.value.content))
  }

  function VersionFetched(s: State, r: RequestId): State
    requires r in s.requests && (s.requests[r].op.Restore? || s.requests[r].op.WebRestore?)
  {
    var found := SelectVersion(s.tables, s.requests[r].op.target, s.requests[r].op.document);
    Move(s, r, if found.Some? then Fetched(found.value) else Leaving)
  }

  function NameFetched(s: State, r: RequestId): State
    requires r in s.requests && s.requests[r].op.OnDocument() && s.requests[r].at.Fetched?
  {
    var found := SelectDocument(s.tables, s.requests[r].op.document);
    Move(s, r, if found.Some? then Ready(found.value.name, s.requests[r].at.v.content) else Leaving)
  }

  function CurrentRead(s: State, r: RequestId): State
    requires r in s.requests && s.requests[r].op.OnDocument() && s.requests[r].at.Ready?
  {
    var q := s.requests[r];
    var found := SelectDocument(s.tables, q.op.document);
    Move(s, r, if found.Some? then Current(q.at.name, q.at.content, found.value) else Leaving)
  }

  function SnapshotInserted(s: State, r: RequestId, versionId: VersionId, outcome: Outcome): State
    requires r in s.requests && s.requests[r].op.OnDocument() && s.requests[r].at.Current?
  {
    var q := s.requests[r];
    var snapshot := Snapshot(q.op.document, q.at.row.version, q.at.row.content);
    Move(s, r, if outcome.Ok() then Snapped(q.at.name, q.at.content) else Leaving).(
      tables := if outcome.Applied() then InsertVersion(s.tables, versionId, snapshot) else s.tables)
  }

  function RowUpdated(s: State, r: RequestId, outcome: Outcome): State
    requires r in s.requests && s.requests[r].op.OnDocument() && s.requests[r].at.Snapped?
  {
    var q := s.requests[r];
    Move(s, r, if outcome.Ok() then Written(q.op.document, q.at.content) else Leaving).(
      tables := if outcome.Applied() then UpdateRow(s.tables, q.op.document, q.at.name, q.at.content) else s.tables)
  }

  function RowCreated(s: State, r: RequestId, document: DocumentId, outcome: Outcome): State
    requires r in s.requests && s.requests[r].op.Upload? && s.requests[r].at.Stored?
  {
    var q := s.requests[r];
    Move(s, r, if outcome.Ok() then Written(document, q.at.content) else Leaving).(
      tables := if outcome.Applied() then InsertDocument(s.tables, document, q.op.bucket, q.op.name, q.at.content)
                else s.tables)
  }

  function Unlocked(h: Hashes, s: State, r: RequestId, applied: bool): State
    requires r in s.requests && s.requests[r].session.Some?
  {
    Move(s, r, Closing).(
      locks := if applied then Release(s.locks, LockIdOf(h, s.requests[r]), s.requests[r].session.value) else s.locks)
  }

  function SessionsEnded(s: State, ended: set<Session>): State {
    s.(sessions := s.sessions - ended, locks := EndSessions(s.locks, ended))
  }

  function Crashed(s: State, node: NodeId): State {
    SessionsEnded(s, set x | x in s.sessions && s.sessions[x] == node).(
      requests := map r | r in s.requests && s.requests[r].node != node :: s.requests[r])
  }

  ghost function Apply(h: Hashes, s: State, e: Event): State
    requires Enabled(h, s, e)
  {
    match e
    case Arrive(r, node, op) => Arrived(s, r, node, op)
    case Connect(r, session) => Connected(s, r, session)
    case ConnectFails(r) => Gone(s, r)
    case Grant(r) => Granted(h, s, r, Entered)
    case LockFails(r, granted) => if granted then Granted(h, s, r, Closing) else Move(s, r, Closing)
    case PutFile(r) => FileStored(h, s, r)
    case KeepFile(r) => FileKept(s, r)
    case FetchVersion(r) => VersionFetched(s, r)
    case FetchName(r) => NameFetched(s, r)
    case ReadCurrent(r) => CurrentRead(s, r)
    case Archive(r, versionId, outcome) => SnapshotInserted(s, r, versionId, outcome)
    case Write(r, outcome) => RowUpdated(s, r, outcome)
    case Create(r, document, outcome) => RowCreated(s, r, document, outcome)
    case Reread(r, _, _) => Move(s, r, Leaving)
    case CommitMetadata(r) => Move(s, r, Leaving)
    case Fail(r) => Move(s, r, Leaving)
    case Unlock(r, applied) => Unlocked(h, s, r, applied)
    case Close(r, pooled) =>
      if pooled then Gone(s, r) else SessionsEnded(Gone(s, r), {s.requests[r].session.value})
    case Return(r) => Gone(s, r)
    case CloseIdle(session) => SessionsEnded(s, {session})
    case Crash(node) => Crashed(s, node)
    case Delete(document) => s.(tables := MarkDeleted(s.tables, document))
    case Rename(document, name) => s.(tables := RenameRow(s.tables, document, name))
    case RemoveBlob(key) => s.(blobs := s.blobs - {key})
  }

  // The tables after an event, read off the four statements that change them.
  function TablesAfter(s: State, e: Event): Tables {
    match e
    case Archive(r, versionId, outcome) =>
      if r in s.requests && s.requests[r].at.Current? && s.requests[r].op.OnDocument() && outcome.Applied() then
        var q := s.requests[r];
        InsertVersion(s.tables, versionId, Snapshot(q.op.document, q.at.row.version, q.at.row.content))
      else s.tables
    case Write(r, outcome) =>
      if r in s.requests && s.requests[r].at.Snapped? && s.requests[r].op.OnDocument() && outcome.Applied() then
        UpdateRow(s.tables, s.requests[r].op.document, s.requests[r].at.name, s.requests[r].at.content)
      else s.tables
    case Create(r, d, outcome) =>
      if r in s.requests && s.requests[r].at.Stored? && s.requests[r].op.Upload? && outcome.Applied() then
        InsertDocument(s.tables, d, s.requests[r].op.bucket, s.requests[r].op.name, s.requests[r].at.content)
      else s.tables
    case Delete(d) => MarkDeleted(s.tables, d)
    case Rename(d, name) => RenameRow(s.tables, d, name)
    case _ => s.tables
  }

  lemma TablesAfterIs(h: Hashes, s: State, e: Event)
    requires Enabled(h, s, e)
    ensures Apply(h, s, e).tables == TablesAfter(s, e)
  {
  }

  // Events at which one request goes on to its next position.
  predicate MovesOn(e: Event) {
    || e.Grant? || e.LockFails? || e.PutFile? || e.KeepFile? || e.FetchVersion? || e.FetchName? || e.ReadCurrent?
    || e.Archive? || e.Write? || e.Create? || e.Reread? || e.CommitMetadata? || e.Fail? || e.Unlock?
  }

  /** Events of runs in which content changes only through the API: no unlocked web update or
      restore, and no blob removal by the web delete. */
  predicate ApiEvent(e: Event) {
    && (e.Arrive? ==> !e.op.Unlocked())
    && !e.RemoveBlob?
  }

  ghost predicate Run(h: Hashes, states: seq<State>, events: seq<Event>) {
    && |states| == |events| + 1
    && states[0] == INITIAL
    && forall i | 0 <= i < |events| :: Enabled(h, states[i], events[i]) && states[i + 1] == Apply(h, states[i], events[i])
  }

  ghost predicate ApiRun(h: Hashes, states: seq<State>, events: seq<Event>) {
    Run(h, states, events) && forall i | 0 <= i < |events| :: ApiEvent(events[i])
  }
}
