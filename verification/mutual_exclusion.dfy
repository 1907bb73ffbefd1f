/** The advisory lock really excludes: for every key at most one request in the whole cluster is
    between Lock and unlock. Lost unlocks, re-entrant grants to a pooled session that still holds
    the lock, colliding lock identifiers, discarded connections and node crashes are all allowed. */
module MutualExclusion {
  import opened AdvisoryLocks
  import opened Cluster

  // Each session carries at most one request, on the node that opened it.
  ghost predicate SessionsApart(s: State) {
    && (forall r | r in s.requests ::
          var q := s.requests[r];
          && (q.at.Waiting? || q.Inside() || q.at.Closing? ==> q.session.Some?)
          && (q.op.Unlocked() ==> q.session.None? && q.at.Critical())
          && (q.session.Some? ==> q.session.value in s.sessions && s.sessions[q.session.value] == q.node))
    && (forall r1, r2 | r1 in s.requests && r2 in s.requests && r1 != r2 ::
          s.requests[r1].session.Some? ==> s.requests[r1].session != s.requests[r2].session)
  }

  ghost predicate HoldsItsLock(h: Hashes, s: State, r: RequestId)
    requires r in s.requests
  {
    var q := s.requests[r];
    q.Inside() ==> q.session.Some? && Held(s.locks, LockIdOf(h, q), q.session.value)
  }

  ghost predicate LocksSound(h: Hashes, s: State) {
    && (forall id | id in s.locks :: s.locks[id].session in s.sessions && s.locks[id].count >= 1)
    && (forall r | r in s.requests :: HoldsItsLock(h, s, r))
  }

  ghost predicate Safe(h: Hashes, s: State) {
    SessionsApart(s) && LocksSound(h, s)
  }

  // The text of a lock key, as Lock gets it.
  function KeyText(k: LockKey): string {
    match k
    case DocKey(d) => "doc:" + d
    case BucketKey(b) => "bucket:" + b
  }

  /** Different keys have different texts: no document shares its lock key with a bucket. */
  lemma KeyTextInjective(a: LockKey, b: LockKey)
    requires KeyText(a) == KeyText(b)
    ensures a == b
  {
    assert a.DocKey? ==> KeyText(a)[0] == 'd' && KeyText(a)[4..] == a.document;
    assert b.DocKey? ==> KeyText(b)[0] == 'd' && KeyText(b)[4..] == b.document;
    assert a.BucketKey? ==> KeyText(a)[0] == 'b' && KeyText(a)[7..] == a.bucket;
    assert b.BucketKey? ==> KeyText(b)[0] == 'b' && KeyText(b)[7..] == b.bucket;
  }

  /** Who excludes whom: two locking requests have the same key exactly when they are uploads into
      the same bucket, or both are about the same document. */
  lemma SameKeyExactlyWhen(a: Operation, b: Operation)
    ensures KeyText(a.Key()) == KeyText(b.Key())
            <==> (a.Upload? && b.Upload? && a.bucket == b.bucket)
                 || (!a.Upload? && !b.Upload? && a.document == b.document)
    ensures a.Unlocked() <==> a.WebUpdate? || a.WebRestore?
  {
    if KeyText(a.Key()) == KeyText(b.Key()) {
      KeyTextInjective(a.Key(), b.Key());
    }
  }

  /** Two requests inside a critical section have different lock identifiers, hence different keys. */
  lemma AtMostOneInside(h: Hashes, s: State, r1: RequestId, r2: RequestId)
    requires Safe(h, s) && r1 in s.requests && r2 in s.requests && r1 != r2
    requires s.requests[r1].Inside() && s.requests[r2].Inside()
    ensures LockIdOf(h, s.requests[r1]) != LockIdOf(h, s.requests[r2])
    ensures s.requests[r1].op.Key() != s.requests[r2].op.Key()
  {
    assert HoldsItsLock(h, s, r1) && HoldsItsLock(h, s, r2);
  }

  // A request that moves on keeps its session.
  lemma MoveKeepsSessionsApart(s: State, s': State, r: RequestId, to: Position)
    requires r in s.requests && (s.requests[r].at.Critical() || s.requests[r].at.Waiting?)
    requires SessionsApart(s) && s'.sessions == s.sessions && s'.requests == Move(s, r, to).requests
    requires to.Critical() || (to.Closing? && s.requests[r].session.Some?)
    ensures SessionsApart(s')
  {
    forall x | x in s'.requests
      ensures x in s.requests && s'.requests[x].session == s.requests[x].session
    {
    }
  }

  lemma FewerKeepSessionsApart(s: State, s': State)
    requires SessionsApart(s) && s'.requests.Keys <= s.requests.Keys
    requires forall r | r in s'.requests :: s'.requests[r] == s.requests[r]
    requires forall r | r in s'.requests :: s.requests[r].session.Some? ==>
               var x := s.requests[r].session.value;
               x in s.sessions ==> x in s'.sessions && s'.sessions[x] == s.sessions[x]
    ensures SessionsApart(s')
  {
  }

  lemma MoveChangesOneRequest(h: Hashes, s: State, e: Event)
    requires Enabled(h, s, e) && MovesOn(e)
    ensures var s' := Apply(h, s, e);
            && e.r in s.requests && (s.requests[e.r].at.Critical() || s.requests[e.r].at.Waiting?)
            && e.r in s'.requests
            && s'.requests == Move(s, e.r, s'.requests[e.r].at).requests
            && s'.sessions == s.sessions
            && s'.requests[e.r].at.Closing? == (e.LockFails? || e.Unlock?)
            && (s'.requests[e.r].at.Critical() || (s'.requests[e.r].at.Closing? && s.requests[e.r].session.Some?))
            && ((e.Grant? || e.LockFails?) == s.requests[e.r].at.Waiting?)
  {
  }

  lemma StepKeepsSessionsApart(h: Hashes, s: State, e: Event)
    requires Safe(h, s) && Enabled(h, s, e)
    ensures SessionsApart(Apply(h, s, e))
  {
    var s' := Apply(h, s, e);
    if MovesOn(e) {
      MoveChangesOneRequest(h, s, e);
      MoveKeepsSessionsApart(s, s', e.r, s'.requests[e.r].at);
    } else if e.ConnectFails? || e.Close? || e.Return? || e.CloseIdle? || e.Crash? {
      FewerKeepSessionsApart(s, s');
    }
  }

  predicate TouchesLocks(e: Event) {
    e.Grant? || e.LockFails? || e.Unlock? || e.Close? || e.CloseIdle? || e.Crash?
  }

  lemma LockEventKeepsLocksSound(h: Hashes, s: State, e: Event)
    requires Safe(h, s) && Enabled(h, s, e) && TouchesLocks(e)
    ensures LocksSound(h, Apply(h, s, e))
  {
    var s' := Apply(h, s, e);
    forall r | r in s'.requests
      ensures HoldsItsLock(h, s', r)
    {
      assert HoldsItsLock(h, s, r);
    }
  }

  lemma OtherEventKeepsLocksSound(h: Hashes, s: State, e: Event)
    requires Safe(h, s) && Enabled(h, s, e) && !TouchesLocks(e)
    ensures LocksSound(h, Apply(h, s, e))
  {
    var s' := Apply(h, s, e);
    LocksStay(h, s, e);
    forall r | r in s'.requests
      ensures HoldsItsLock(h, s', r)
    {
      if s'.requests[r].Inside() {
        WasInside(h, s, e, r);
        assert HoldsItsLock(h, s, r);
      }
    }
  }

  lemma LocksStay(h: Hashes, s: State, e: Event)
    requires Enabled(h, s, e) && !TouchesLocks(e)
    ensures Apply(h, s, e).locks == s.locks && s.sessions.Keys <= Apply(h, s, e).sessions.Keys
  {
  }

  lemma WasInside(h: Hashes, s: State, e: Event, r: RequestId)
    requires Enabled(h, s, e) && !TouchesLocks(e) && r in Apply(h, s, e).requests && Apply(h, s, e).requests[r].Inside()
    ensures var q := Apply(h, s, e).requests[r];
            r in s.requests && s.requests[r].Inside() && s.requests[r].op == q.op && s.requests[r].session == q.session
  {
  }

  lemma StepKeepsSafe(h: Hashes, s: State, e: Event)
    requires Safe(h, s) && Enabled(h, s, e)
    ensures Safe(h, Apply(h, s, e))
  {
    StepKeepsSessionsApart(h, s, e);
    if TouchesLocks(e) {
      LockEventKeepsLocksSound(h, s, e);
    } else {
      OtherEventKeepsLocksSound(h, s, e);
    }
  }

  /** The invariant over whole runs, web events and blob removals included. */
  lemma {:induction false} RunsAreSafe(h: Hashes, states: seq<State>, events: seq<Event>, i: nat)
    requires Run(h, states, events) && i < |states|
    ensures Safe(h, states[i])
  {
    if i > 0 {
      RunsAreSafe(h, states, events, i - 1);
      StepKeepsSafe(h, states[i - 1], events[i - 1]);
    }
  }

  /** Mutual exclusion at every point of every run, for requests on any two nodes. */
  lemma MutualExclusionHolds(h: Hashes, states: seq<State>, events: seq<Event>, i: nat, r1: RequestId, r2: RequestId)
    requires Run(h, states, events) && i < |states|
    requires r1 in states[i].requests && r2 in states[i].requests
    requires states[i].requests[r1].Inside() && states[i].requests[r2].Inside()
    requires states[i].requests[r1].op.Key() == states[i].requests[r2].op.Key()
    ensures r1 == r2
  {
    RunsAreSafe(h, states, events, i);
    if r1 != r2 {
      AtMostOneInside(h, states[i], r1, r2);
    }
  }
}
