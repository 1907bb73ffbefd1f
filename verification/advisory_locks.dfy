/** PostgreSQL session-level advisory locks: one table for the whole server, re-entrant per
    session, with a count of acquisitions. A lock outlives the statement that took it and goes
    away by as many unlocks as there were acquisitions, or with its session. */
module AdvisoryLocks {
  type Session = nat
  type LockId = int

  datatype Hold = Hold(session: Session, count: nat)

  type LockTable = map<LockId, Hold>

  predicate Held(locks: LockTable, id: LockId, from: Session) {
    id in locks && locks[id].session == from
  }

  // pg_advisory_lock(id) returns, and pg_try_advisory_lock(id) answers true.
  predicate Grantable(locks: LockTable, id: LockId, to: Session) {
    id in locks ==> locks[id].session == to
  }

  function Acquire(locks: LockTable, id: LockId, to: Session): LockTable {
    if id in locks then
      if locks[id].session == to then locks[id := Hold(to, locks[id].count + 1)] else locks
    else locks[id := Hold(to, 1)]
  }

  // pg_advisory_unlock(id): a warning and no effect when the session does not hold the lock.
  function Release(locks: LockTable, id: LockId, from: Session): LockTable {
    if Held(locks, id, from) then
      if locks[id].count <= 1 then locks - {id} else locks[id := Hold(from, locks[id].count - 1)]
    else locks
  }

  // The server drops every lock of a session that ends.
  function EndSessions(locks: LockTable, ended: set<Session>): LockTable {
    map id | id in locks && locks[id].session !in ended :: locks[id]
  }

  // How often the lock is held.
  function Count(locks: LockTable, id: LockId): nat {
    if id in locks then locks[id].count else 0
  }

  predicate SameLock(before: LockTable, after: LockTable, id: LockId) {
    (id in before <==> id in after) && (id in before ==> after[id] == before[id])
  }

  /** Lock and unlock on one session undo each other, re-entrant or not. */
  lemma UnlockUndoesLock(locks: LockTable, id: LockId, session: Session)
    requires Grantable(locks, id, session) && (id in locks ==> locks[id].count >= 1)
    ensures Release(Acquire(locks, id, session), id, session) == locks
  {
  }

  /** A session that keeps a lock because its unlock was lost shuts out every other session until it
      ends; a later request that is handed the same pooled session still gets in. */
  lemma LostUnlockShutsOutExactlyTheOthers(locks: LockTable, id: LockId, session: Session, other: Session)
    requires id !in locks
    ensures Grantable(Acquire(locks, id, session), id, other) <==> other == session
    ensures Grantable(EndSessions(Acquire(locks, id, session), {session}), id, other)
  {
  }

  /** The database server as its clients see it: one shared lock table. */
  class LockServer {
    var locks: LockTable

    constructor ()
      ensures locks == map[]
    {
      locks := map[];
    }

    /** pg_advisory_lock blocks until the lock is grantable; this is the moment at which it returns.
        The session then holds the lock once more than before, and no other lock has changed. */
    method AdvisoryLock(id: LockId, session: Session)
      requires Grantable(locks, id, session)
      modifies this
      ensures Held(locks, id, session)
      ensures locks[id].count == 1 + Count(old(locks), id)
      ensures forall other | other != id :: SameLock(old(locks), locks, other)
      ensures locks == Acquire(old(locks), id, session)
    {
      if id in locks {
        locks := locks[id := Hold(session, locks[id].count + 1)];
      } else {
        locks := locks[id := Hold(session, 1)];
      }
    }

    method TryAdvisoryLock(id: LockId, session: Session) returns (won: bool)
      modifies this
      ensures won == Grantable(old(locks), id, session)
      ensures locks == Acquire(old(locks), id, session)
      ensures won ==> Held(locks, id, session)
      ensures !won ==> locks == old(locks)
    {
      won := id !in locks || locks[id].session == session;
      locks := Acquire(locks, id, session);
    }

    /** The session holds the lock afterwards exactly when it held it more than once; a session that
        does not hold it changes nothing, and no other lock changes. */
    method AdvisoryUnlock(id: LockId, session: Session)
      modifies this
      ensures Held(locks, id, session) <==> Held(old(locks), id, session) && Count(old(locks), id) > 1
      ensures Held(locks, id, session) ==> Count(locks, id) == Count(old(locks), id) - 1
      ensures !Held(old(locks), id, session) ==> locks == old(locks)
      ensures forall other | other != id :: SameLock(old(locks), locks, other)
      ensures locks == Release(old(locks), id, session)
    {
      if id in locks && locks[id].session == session {
        if locks[id].count <= 1 {
          locks := locks - {id};
        } else {
          locks := locks[id := Hold(session, locks[id].count - 1)];
        }
      }
    }

    /** No lock of the session is left, and all locks of other sessions are as they were. */
    method EndSession(session: Session)
      modifies this
      ensures forall id :: !Held(locks, id, session)
      ensures forall id | !Held(old(locks), id, session) :: SameLock(old(locks), locks, id)
      ensures locks == EndSessions(old(locks), {session})
    {
      locks := map id | id in locks && locks[id].session != session :: locks[id];
    }
  }
}
