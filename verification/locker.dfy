/** PGLocker of internal/cluster/locker.go: Lock takes a connection of its own and waits for the
    advisory lock on it; the returned closure unlocks and gives the connection back. */
module Locker {
  import opened Common
  import opened AdvisoryLocks
  import Fnv

  /** How waiting for the lock ends. `GaveUpHolding` is a request that was cancelled although the
      server had already granted the lock. */
  datatype Wait = Got | GaveUp | GaveUpHolding

  class PGLocker {
    const server: LockServer
    var busy: set<Session>

    constructor (server: LockServer)
      ensures this.server == server && busy == {}
    {
      this.server := server;
      busy := {};
    }

    /** `conn` is the connection that the pool hands out; no other user has it. */
    method Lock(key: seq<Fnv.Octet>, conn: Option<Session>, wait: Wait) returns (held: Option<Unlocker>)
      requires conn.Some? ==> conn.value !in busy
      requires conn.Some? && !wait.GaveUp? ==> Grantable(server.locks, Fnv.LockNumber(key), conn.value)
      modifies this, server
      ensures held.Some? <==> conn.Some? && wait.Got?
      ensures server.locks == if conn.Some? && !wait.GaveUp?
                              then Acquire(old(server.locks), Fnv.LockNumber(key), conn.value) else old(server.locks)
      ensures busy == if held.Some? then old(busy) + {conn.value} else old(busy)
      ensures held.Some? ==> held.value.locker == this && held.value.session == conn.value
                             && held.value.id == Fnv.LockNumber(key)
                             && Held(server.locks, held.value.id, held.value.session)
    {
      var id := Fnv.KeyToInt64(key);
      if conn.None? {
        return None;
      }
      if !wait.GaveUp? {
        server.AdvisoryLock(id, conn.value);
      }
      if !wait.Got? {
        return None;
      }
      busy := busy + {conn.value};
      var unlocker := new Unlocker(this, id, conn.value);
      held := Some(unlocker);
    }
  }

  /** The closure returned by Lock. */
  class Unlocker {
    const locker: PGLocker
    const id: LockId
    const session: Session

    constructor (locker: PGLocker, id: LockId, session: Session)
      ensures this.locker == locker && this.id == id && this.session == session
    {
      this.locker, this.id, this.session := locker, id, session;
    }

    method Unlock(delivered: bool)
      modifies locker, locker.server
      ensures locker.server.locks == if delivered then Release(old(locker.server.locks), id, session)
                                     else old(locker.server.locks)
      ensures locker.busy == old(locker.busy) - {session}
    {
      if delivered {
        locker.server.AdvisoryUnlock(id, session);
      }
      locker.busy := locker.busy - {session};
    }
  }

  /** A critical section that takes and gives back its lock leaves the server and the pool as they
      were. */
  method CriticalSection(locker: PGLocker, key: seq<Fnv.Octet>, conn: Session)
    requires conn !in locker.busy && Grantable(locker.server.locks, Fnv.LockNumber(key), conn)
    requires forall id | id in locker.server.locks :: locker.server.locks[id].count >= 1
    modifies locker, locker.server
    ensures locker.server.locks == old(locker.server.locks) && locker.busy == old(locker.busy)
  {
    var held := locker.Lock(key, Some(conn), Got);
    UnlockUndoesLock(old(locker.server.locks), Fnv.LockNumber(key), conn);
    held.value.Unlock(true);
  }
}
