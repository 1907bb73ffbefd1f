/** What may go wrong in the cluster, and what stays as it was when it does. */
module Faults {
  import opened Common
  import opened Documents
  import opened AdvisoryLocks
  import opened Cluster

  /** Nothing is assumed to work: at every point a request may fail, its lock may be refused or lost,
      an unlock may not arrive, its connection may be discarded, and any node may crash. */
  lemma AnyLockStepMayFail(h: Hashes, s: State, r: RequestId, node: NodeId)
    requires r in s.requests
    ensures Enabled(h, s, Crash(node))
    ensures s.requests[r].at.Loaded? ==> Enabled(h, s, ConnectFails(r))
    ensures s.requests[r].at.Critical() ==> Enabled(h, s, Fail(r))
    ensures s.requests[r].at.Waiting? && s.requests[r].session.Some? ==>
              && Enabled(h, s, LockFails(r, false))
              && (Grantable(s.locks, LockIdOf(h, s.requests[r]), s.requests[r].session.value) ==>
                    Enabled(h, s, LockFails(r, true)))
    ensures s.requests[r].at.Leaving? && s.requests[r].session.Some? ==> forall x :: Enabled(h, s, Unlock(r, x))
    ensures s.requests[r].at.Closing? && s.requests[r].session.Some? ==> forall x :: Enabled(h, s, Close(r, x))
  {
  }

  /** And each of its statements may be refused, or carried out without an answer. */
  lemma AnyStatementMayFail(h: Hashes, s: State, r: RequestId, v: VersionId, d: DocumentId)
    requires r in s.requests && v !in s.tables.versions && d !in s.tables.documents
    ensures s.requests[r].at.Current? && s.requests[r].op.OnDocument() ==> forall o :: Enabled(h, s, Archive(r, v, o))
    ensures s.requests[r].at.Snapped? && s.requests[r].op.OnDocument() ==> Enabled(h, s, Write(r, Refused))
    ensures s.requests[r].at.Written? ==> forall x :: Enabled(h, s, Reread(r, false, x))
    ensures s.requests[r].at.Stored? && s.requests[r].op.Upload? ==> Enabled(h, s, Create(r, d, Refused))
  {
  }

  /** An UPDATE or INSERT whose name is free may end in any way. */
  lemma FreeNamesMayBeWritten(h: Hashes, s: State, r: RequestId, d: DocumentId, o: Outcome)
    requires r in s.requests && d !in s.tables.documents
    ensures s.requests[r].at.Snapped? && s.requests[r].op.OnDocument() && s.requests[r].op.document in s.tables.documents
            && (forall x | x in s.tables.documents && x != s.requests[r].op.document
                           && s.tables.documents[x].bucket == s.tables.documents[s.requests[r].op.document].bucket ::
                  s.tables.documents[x].name != s.requests[r].at.name)
            ==> Enabled(h, s, Write(r, o))
    ensures s.requests[r].at.Stored? && s.requests[r].op.Upload?
            && (forall x | x in s.tables.documents && s.tables.documents[x].bucket == s.requests[r].op.bucket ::
                  s.tables.documents[x].name != s.requests[r].op.name)
            ==> Enabled(h, s, Create(r, d, o))
  {
  }

  /** A crash ends the node's requests and sessions and frees their locks; rows, files, and what the
      other nodes have stay as they were. */
  lemma CrashTakesOnlyTheNode(h: Hashes, s: State, node: NodeId)
    ensures var s' := Apply(h, s, Crash(node));
            && s'.tables == s.tables && s'.blobs == s.blobs
            && (forall r :: r in s'.requests <==> r in s.requests && s.requests[r].node != node)
            && (forall r | r in s'.requests :: s'.requests[r] == s.requests[r])
            && (forall x :: x in s'.sessions <==> x in s.sessions && s.sessions[x] != node)
            && (forall x | x in s'.sessions :: s'.sessions[x] == s.sessions[x])
            && (forall id :: id in s'.locks
                  <==> id in s.locks && !(s.locks[id].session in s.sessions && s.sessions[s.locks[id].session] == node))
            && (forall id | id in s'.locks :: s'.locks[id] == s.locks[id])
  {
  }

  /** A connection that is thrown away ends its session and frees what that session held; one that
      goes back to the pool keeps its session and its locks. */
  lemma ConnectionsEndOrAreKept(h: Hashes, s: State, r: RequestId, x: Session)
    requires r in s.requests && s.requests[r].at.Closing? && s.requests[r].session == Some(x)
    ensures var s' := Apply(h, s, Close(r, false));
            s'.sessions == s.sessions - {x} && s'.locks == (map id | id in s.locks && s.locks[id].session != x :: s.locks[id])
    ensures var s' := Apply(h, s, Close(r, true)); s'.sessions == s.sessions && s'.locks == s.locks
    ensures forall pooled :: Apply(h, s, Close(r, pooled)).requests == s.requests - {r}
    ensures Apply(h, s, Close(r, false)).tables == s.tables == Apply(h, s, Close(r, true)).tables
  {
  }

  lemma IdleConnectionsMayEnd(h: Hashes, s: State, x: Session)
    requires x in s.sessions && forall r | r in s.requests :: s.requests[r].session != Some(x)
    ensures Enabled(h, s, CloseIdle(x))
    ensures var s' := Apply(h, s, CloseIdle(x));
            && s'.sessions == s.sessions - {x} && s'.locks == (map id | id in s.locks && s.locks[id].session != x :: s.locks[id])
            && s'.tables == s.tables && s'.requests == s.requests
  {
  }

  /** A delete marks its row, a rename changes the name of a live row; nothing else changes. */
  lemma DeleteAndRenameTouchOneRow(h: Hashes, s: State, d: DocumentId, name: string)
    requires d in s.tables.documents
    ensures var s' := Apply(h, s, Delete(d));
            s' == s.(tables := s.tables.(documents := s.tables.documents[d := s.tables.documents[d].(deleted := true)]))
    ensures Enabled(h, s, Rename(d, name)) ==>
              Apply(h, s, Rename(d, name))
              == (if s.tables.documents[d].deleted then s
                  else s.(tables := s.tables.(documents := s.tables.documents[d := s.tables.documents[d].(name := name)])))
  {
  }
}
