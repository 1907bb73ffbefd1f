/** No deadlock on advisory locks. As long as unlocks reach the server and the pool can open a new
    connection, all requests in flight can be driven to completion from every reachable state,
    without any of them failing, being cancelled or timing out, exactly when none of them has yet to
    take a lock whose number somebody outside holds. The leader is somebody outside: it keeps its
    lock number as long as it leads. */
module Progress {
  import opened Common
  import opened Documents
  import opened History
  import opened AdvisoryLocks
  import opened Cluster
  import opened MutualExclusion
  import opened Lossless
  import Leader

  /** No unlock is lost and no lock is granted to a request that is told it was not. */
  predicate CleanEvent(e: Event) {
    (e.Unlock? ==> e.applied) && (e.LockFails? ==> !e.granted)
  }

  ghost predicate HeldInside(h: Hashes, s: State, id: LockId)
    requires id in s.locks
  {
    exists r :: r in s.requests && s.requests[r].Inside() && LockIdOf(h, s.requests[r]) == id
                && s.requests[r].session == Some(s.locks[id].session)
  }

  // Every advisory lock is held once, by a request that is inside its critical section.
  ghost predicate NoLeak(h: Hashes, s: State) {
    forall id | id in s.locks :: s.locks[id].count == 1 && HeldInside(h, s, id)
  }

  // A step of r leaves the lock of any other request with that request.
  lemma StaysHeldInside(h: Hashes, s: State, s': State, id: LockId, r: RequestId)
    requires id in s.locks && id in s'.locks && s'.locks[id] == s.locks[id]
    requires r in s.requests && s.requests[r].Inside() && LockIdOf(h, s.requests[r]) == id
    requires s.requests[r].session == Some(s.locks[id].session)
    requires r in s'.requests && s'.requests[r].Inside() && s'.requests[r].op == s.requests[r].op
    requires s'.requests[r].session == s.requests[r].session
    ensures HeldInside(h, s', id)
  {
  }

  lemma GrantIsFirst(h: Hashes, s: State, r: RequestId)
    requires Safe(h, s) && NoLeak(h, s) && Enabled(h, s, Grant(r))
    ensures LockIdOf(h, s.requests[r]) !in s.locks
  {
    var id := LockIdOf(h, s.requests[r]);
    assert id in s.locks ==> HeldInside(h, s, id);
  }

  // What a step does to one lock that it does not create.
  lemma OldLockStaysClean(h: Hashes, s: State, e: Event, id: LockId)
    requires Safe(h, s) && NoLeak(h, s) && Enabled(h, s, e) && CleanEvent(e)
    requires id in s.locks && id in Apply(h, s, e).locks
    ensures Apply(h, s, e).locks[id] == s.locks[id] && HeldInside(h, Apply(h, s, e), id)
  {
    var s' := Apply(h, s, e);
    assert HeldInside(h, s, id);
    var r :| r in s.requests && s.requests[r].Inside() && LockIdOf(h, s.requests[r]) == id
             && s.requests[r].session == Some(s.locks[id].session);
    if e.Grant? {
      GrantIsFirst(h, s, e.r);
    }
    assert s'.locks[id] == s.locks[id];
    HolderStays(h, s, e, id, r);
    StaysHeldInside(h, s, s', id, r);
  }

  lemma HolderStays(h: Hashes, s: State, e: Event, id: LockId, r: RequestId)
    requires Safe(h, s) && Enabled(h, s, e) && CleanEvent(e)
    requires id in s.locks && s.locks[id].count == 1 && id in Apply(h, s, e).locks
    requires r in s.requests && s.requests[r].Inside() && LockIdOf(h, s.requests[r]) == id
    requires s.requests[r].session == Some(s.locks[id].session)
    ensures var s' := Apply(h, s, e);
            && r in s'.requests && s'.requests[r].Inside() && s'.requests[r].op == s.requests[r].op
            && s'.requests[r].session == s.requests[r].session
  {
    if MovesOn(e) {
      MoveChangesOneRequest(h, s, e);
    } else {
      HolderStaysElsewhere(h, s, e, id, r);
    }
  }

  lemma HolderStaysElsewhere(h: Hashes, s: State, e: Event, id: LockId, r: RequestId)
    requires Safe(h, s) && Enabled(h, s, e) && !MovesOn(e)
    requires id in s.locks && id in Apply(h, s, e).locks
    requires r in s.requests && s.requests[r].Inside() && s.requests[r].session == Some(s.locks[id].session)
    ensures var s' := Apply(h, s, e);
            r in s'.requests && s'.requests[r] == s.requests[r]
  {
  }

  lemma NewLockIsGranted(h: Hashes, s: State, e: Event, id: LockId)
    requires Safe(h, s) && Enabled(h, s, e) && CleanEvent(e) && id !in s.locks && id in Apply(h, s, e).locks
    ensures Apply(h, s, e).locks[id].count == 1 && HeldInside(h, Apply(h, s, e), id)
  {
    var s' := Apply(h, s, e);
    assert e.Grant? && e.r in s'.requests && id == LockIdOf(h, s.requests[e.r]);
    assert s'.requests[e.r].Inside();
  }

  lemma StepKeepsNoLeak(h: Hashes, s: State, e: Event)
    requires Safe(h, s) && NoLeak(h, s) && Enabled(h, s, e) && CleanEvent(e)
    ensures NoLeak(h, Apply(h, s, e))
  {
    var s' := Apply(h, s, e);
    forall id | id in s'.locks
      ensures s'.locks[id].count == 1 && HeldInside(h, s', id)
    {
      if id in s.locks {
        OldLockStaysClean(h, s, e, id);
      } else {
        NewLockIsGranted(h, s, e, id);
      }
    }
  }

  // ── Completing requests ───────────────────────────────────────────────────────

  /** Events in which everything goes well and nobody new arrives. A UNIQUE violation on the name is
      the server's answer to the statement, not a fault. */
  predicate Smooth(e: Event) {
    match e
    case Unlock(_, applied) => applied
    case Archive(_, _, outcome) => outcome.Done?
    case Write(_, outcome) => !outcome.Lost?
    case Create(_, _, outcome) => !outcome.Lost?
    case Connect(_, _) => true
    case Grant(_) => true
    case PutFile(_) => true
    case KeepFile(_) => true
    case FetchVersion(_) => true
    case FetchName(_) => true
    case ReadCurrent(_) => true
    case Reread(_, ok, _) => ok
    case CommitMetadata(_) => true
    case Close(_, _) => true
    case _ => false
  }

  // A smooth event that takes no lock of `outside`.
  ghost predicate Goes(h: Hashes, outside: set<LockId>, s: State, e: Event) {
    Smooth(e) && Enabled(h, s, e) && (e.Grant? ==> LockIdOf(h, s.requests[e.r]) !in outside)
  }

  ghost predicate Leads(h: Hashes, outside: set<LockId>, s: State, events: seq<Event>, s': State)
    decreases |events|
  {
    if events == [] then s == s'
    else Goes(h, outside, s, events[0]) && Leads(h, outside, Apply(h, s, events[0]), events[1..], s')
  }

  lemma {:induction false} LeadsOn(h: Hashes, outside: set<LockId>, s: State, a: seq<Event>, m: State, b: seq<Event>, s': State)
    requires Leads(h, outside, s, a, m) && Leads(h, outside, m, b, s')
    ensures Leads(h, outside, s, a + b, s')
    decreases |a|
  {
    if a == [] {
      assert a + b == b;
    } else {
      LeadsOn(h, outside, Apply(h, s, a[0]), a[1..], m, b, s');
      assert (a + b)[0] == a[0] && (a + b)[1..] == a[1..] + b;
    }
  }

  // ── Fresh identifiers ─────────────────────────────────────────────────────────

  lemma {:induction false} FreshSession(used: set<Session>) returns (x: Session)
    ensures forall y | y in used :: y < x
  {
    if used == {} {
      x := 0;
    } else {
      var y :| y in used;
      var z := FreshSession(used - {y});
      x := if y < z then z else y + 1;
      assert used == (used - {y}) + {y};
    }
  }

  lemma {:induction false} FreshName(used: set<string>) returns (x: string)
    ensures forall y | y in used :: |y| < |x|
    ensures x !in used
  {
    if used == {} {
      x := "";
    } else {
      var y :| y in used;
      var z := FreshName(used - {y});
      x := if |y| < |z| then z else y + "x";
    }
  }

  /** How far a request is from being done. */
  function Remaining(at: Position): nat {
    match at
    case Loaded => 10
    case Waiting => 9
    case Entered => 8
    case Fetched(_) => 7
    case Stored(_) => 4
    case Ready(_, _) => 6
    case Current(_, _, _) => 5
    case Snapped(_, _) => 4
    case Written(_, _) => 3
    case Leaving => 2
    case Closing => 1
  }

  predicate Outside(at: Position) {
    at.Loaded? || at.Waiting?
  }

  // Nobody else stands in the way of r.
  ghost predicate Clear(h: Hashes, outside: set<LockId>, s: State, r: RequestId)
    requires r in s.requests
  {
    Outside(s.requests[r].at) ==> LockIdOf(h, s.requests[r]) !in s.locks && LockIdOf(h, s.requests[r]) !in outside
  }

  /** No request in flight has yet to take a lock that somebody outside holds. */
  ghost predicate Unblocked(h: Hashes, outside: set<LockId>, s: State) {
    forall r | r in s.requests && Outside(s.requests[r].at) :: LockIdOf(h, s.requests[r]) !in outside
  }

  lemma NextEvent(h: Hashes, outside: set<LockId>, s: State, logs: Logs, r: RequestId) returns (e: Event)
    requires Inv(h, s, logs) && r in s.requests && Clear(h, outside, s, r)
    ensures Goes(h, outside, s, e) && (e.Connect? || MovesOn(e) || e.Close?) && e.r == r
  {
    if Outside(s.requests[r].at) {
      e := LockingEvent(h, s, r);
    } else if s.requests[r].at.Entered? {
      e := FirstEvent(h, s, logs, r);
    } else {
      e := LaterEvent(h, s, logs, r);
    }
  }

  lemma LockingEvent(h: Hashes, s: State, r: RequestId) returns (e: Event)
    requires Safe(h, s) && r in s.requests && Outside(s.requests[r].at) && LockIdOf(h, s.requests[r]) !in s.locks
    ensures Smooth(e) && Enabled(h, s, e) && (e.Connect? || e.Grant?) && e.r == r
  {
    if s.requests[r].at.Loaded? {
      var x := FreshSession(s.sessions.Keys);
      e := Connect(r, x);
    } else {
      e := Grant(r);
    }
  }

  lemma FirstEvent(h: Hashes, s: State, logs: Logs, r: RequestId) returns (e: Event)
    requires Inv(h, s, logs) && r in s.requests && s.requests[r].at.Entered?
    ensures Smooth(e) && Enabled(h, s, e) && MovesOn(e) && !e.Grant? && e.r == r
  {
    var q := s.requests[r];
    assert RequestFits(h, s.tables, logs, q);
    if q.op.ReplaceMetadata? {
      e := CommitMetadata(r);
    } else if q.op.Restore? {
      e := FetchVersion(r);
    } else if FileOf(q.op).Some? {
      e := PutFile(r);
    } else {
      e := KeepFile(r);
    }
  }

  lemma LaterEvent(h: Hashes, s: State, logs: Logs, r: RequestId) returns (e: Event)
    requires Inv(h, s, logs) && r in s.requests && !Outside(s.requests[r].at) && !s.requests[r].at.Entered?
    ensures Smooth(e) && Enabled(h, s, e) && (MovesOn(e) || e.Close?) && !e.Grant? && e.r == r
  {
    var q := s.requests[r];
    assert RequestFits(h, s.tables, logs, q);
    match q.at
    case Fetched(_) => e := FetchName(r);
    case Stored(_) =>
      var d := FreshName(s.tables.documents.Keys);
      e := Create(r, d, if NameTaken(s.tables, q.op.bucket, q.op.name, {}) then Refused else Done);
    case Ready(_, _) => e := ReadCurrent(r);
    case Current(_, _, _) =>
      var v := FreshName(s.tables.versions.Keys);
      e := Archive(r, v, Done);
    case Snapped(name, _) =>
      var taken := NameTaken(s.tables, s.tables.documents[q.op.document].bucket, name, {q.op.document});
      e := Write(r, if taken then Refused else Done);
    case Written(_, _) => e := Reread(r, true, false);
    case Leaving => e := Unlock(r, true);
    case Closing => e := Close(r, true);
  }

  lemma SmoothStepAdvances(h: Hashes, s: State, e: Event)
    requires Enabled(h, s, e) && Smooth(e)
    ensures var s' := Apply(h, s, e);
            && e.r in s.requests
            && s'.requests.Keys == (if e.Close? then s.requests.Keys - {e.r} else s.requests.Keys)
            && (e.r in s'.requests ==>
                  && s'.requests[e.r].op == s.requests[e.r].op
                  && Remaining(s'.requests[e.r].at) < Remaining(s.requests[e.r].at)
                  && (Outside(s'.requests[e.r].at) ==>
                        s'.requests[e.r].at.Waiting? && s.requests[e.r].at.Loaded? && s'.locks == s.locks))
  {
  }

  lemma SmoothStepKeepsOthers(h: Hashes, s: State, e: Event, r: RequestId)
    requires Enabled(h, s, e) && Smooth(e) && r in s.requests && r != e.r
    ensures r in Apply(h, s, e).requests && Apply(h, s, e).requests[r] == s.requests[r]
  {
  }

  lemma StaysUnblocked(h: Hashes, outside: set<LockId>, s: State, e: Event)
    requires Enabled(h, s, e) && Smooth(e) && Unblocked(h, outside, s)
    ensures Unblocked(h, outside, Apply(h, s, e))
  {
    var s' := Apply(h, s, e);
    SmoothStepAdvances(h, s, e);
    forall r | r in s'.requests && Outside(s'.requests[r].at)
      ensures LockIdOf(h, s'.requests[r]) !in outside
    {
      if r != e.r {
        SmoothStepKeepsOthers(h, s, e, r);
      }
    }
  }

  /** One request runs to its end. */
  lemma {:induction false} Finish(h: Hashes, outside: set<LockId>, s: State, logs: Logs, r: RequestId)
    returns (events: seq<Event>, s': State, logs': Logs)
    requires Inv(h, s, logs) && NoLeak(h, s) && r in s.requests && Clear(h, outside, s, r) && Unblocked(h, outside, s)
    ensures Leads(h, outside, s, events, s') && Inv(h, s', logs') && NoLeak(h, s') && Unblocked(h, outside, s')
    ensures s'.requests.Keys == s.requests.Keys - {r}
    decreases Remaining(s.requests[r].at)
  {
    var e := NextEvent(h, outside, s, logs, r);
    var m, logs1 := Apply(h, s, e), LogsAfter(s, logs, e);
    StepRefines(h, s, logs, e);
    StepKeepsNoLeak(h, s, e);
    SmoothStepAdvances(h, s, e);
    StaysUnblocked(h, outside, s, e);
    if r in m.requests {
      var rest;
      rest, s', logs' := Finish(h, outside, m, logs1, r);
      events := [e] + rest;
      assert events[1..] == rest;
    } else {
      events, s', logs' := [e], m, logs1;
      assert Leads(h, outside, m, [], m);
    }
  }

  /** All of them do: whoever is waiting is waiting for a request that can finish first. */
  lemma {:induction false} FinishAll(h: Hashes, outside: set<LockId>, s: State, logs: Logs) returns (events: seq<Event>, s': State)
    requires Inv(h, s, logs) && NoLeak(h, s) && Unblocked(h, outside, s)
    ensures Leads(h, outside, s, events, s') && s'.requests.Keys == {}
    decreases |s.requests.Keys|
  {
    if s.requests.Keys == {} {
      return [], s;
    }
    var r :| r in s.requests;
    if !Clear(h, outside, s, r) {
      var id := LockIdOf(h, s.requests[r]);
      assert HeldInside(h, s, id);
      r :| r in s.requests && s.requests[r].Inside() && LockIdOf(h, s.requests[r]) == id;
    }
    var a, m, logs1 := Finish(h, outside, s, logs, r);
    assert m.requests.Keys < s.requests.Keys;
    CardinalityDrops(m.requests.Keys, s.requests.Keys);
    var b;
    b, s' := FinishAll(h, outside, m, logs1);
    LeadsOn(h, outside, s, a, m, b, s');
    events := a + b;
  }

  /** A request that waits for a lock held outside goes on waiting. */
  lemma {:induction false} BlockedStaysBlocked(h: Hashes, outside: set<LockId>, s: State, events: seq<Event>, s': State, r: RequestId)
    requires Leads(h, outside, s, events, s') && r in s.requests
    requires Outside(s.requests[r].at) && LockIdOf(h, s.requests[r]) in outside
    ensures r in s'.requests
    decreases |events|
  {
    if events != [] {
      var e := events[0];
      SmoothStepAdvances(h, s, e);
      if r == e.r {
        BlockedAdvance(h, outside, s, e);
      } else {
        SmoothStepKeepsOthers(h, s, e, r);
      }
      BlockedStaysBlocked(h, outside, Apply(h, s, e), events[1..], s', r);
    }
  }

  lemma BlockedAdvance(h: Hashes, outside: set<LockId>, s: State, e: Event)
    requires Goes(h, outside, s, e) && e.r in s.requests
    requires Outside(s.requests[e.r].at) && LockIdOf(h, s.requests[e.r]) in outside
    ensures e.Connect? && e.r in Apply(h, s, e).requests && Apply(h, s, e).requests[e.r].at.Waiting?
  {
  }

  lemma CardinalityDrops(a: set<RequestId>, b: set<RequestId>)
    requires a < b
    ensures |a| < |b|
  {
    var x :| x in b && x !in a;
    assert a <= b - {x};
    CardinalityGrows(a, b - {x});
  }

  lemma {:induction false} CardinalityGrows(a: set<RequestId>, b: set<RequestId>)
    requires a <= b
    ensures |a| <= |b|
  {
    if x :| x in a {
      CardinalityGrows(a - {x}, b - {x});
    }
  }

  ghost predicate CleanApiRun(h: Hashes, states: seq<State>, events: seq<Event>) {
    ApiRun(h, states, events) && forall i | 0 <= i < |events| :: CleanEvent(events[i])
  }

  lemma {:induction false} CleanRunsDoNotLeak(h: Hashes, states: seq<State>, events: seq<Event>, i: nat)
    requires CleanApiRun(h, states, events) && i < |states|
    ensures NoLeak(h, states[i])
  {
    if i > 0 {
      CleanRunsDoNotLeak(h, states, events, i - 1);
      RunsAreSafe(h, states, events, i - 1);
      StepKeepsNoLeak(h, states[i - 1], events[i - 1]);
    }
  }

  /** Every request in flight can be brought to its end. */
  ghost predicate CanFinish(h: Hashes, outside: set<LockId>, s: State) {
    exists events, s' :: Leads(h, outside, s, events, s') && s'.requests.Keys == {}
  }

  /** The main result, for every state reached with clean unlocks and every set of lock numbers that
      somebody outside keeps: all requests in flight can finish exactly when none of them has yet to
      take one of these. */
  lemma NoReachableStateIsStuckExactlyWhen(h: Hashes, outside: set<LockId>, states: seq<State>, events: seq<Event>, i: nat)
    requires CleanApiRun(h, states, events) && i < |states|
    ensures CanFinish(h, outside, states[i]) <==> Unblocked(h, outside, states[i])
  {
    var s := states[i];
    if Unblocked(h, outside, s) {
      ApiRunsKeepInv(h, states, events, i);
      CleanRunsDoNotLeak(h, states, events, i);
      var continuation, s' := FinishAll(h, outside, s, LogsAt(states, events, i));
      assert Leads(h, outside, s, continuation, s') && s'.requests.Keys == {};
    } else {
      var r :| r in s.requests && Outside(s.requests[r].at) && LockIdOf(h, s.requests[r]) in outside;
      forall continuation, s' | Leads(h, outside, s, continuation, s')
        ensures s'.requests.Keys != {}
      {
        BlockedStaysBlocked(h, outside, s, continuation, s', r);
      }
    }
  }

  /** While a leader holds its lock nothing is stuck as long as no document or bucket has its number. */
  lemma NothingWaitsForTheLeader(h: Hashes, states: seq<State>, events: seq<Event>, i: nat)
    requires CleanApiRun(h, states, events) && i < |states|
    requires forall key :: h.lockId(key) != Leader.LEADER_LOCK
    ensures CanFinish(h, {}, states[i]) && CanFinish(h, {Leader.LEADER_LOCK}, states[i])
  {
    NoReachableStateIsStuckExactlyWhen(h, {}, states, events, i);
    NoReachableStateIsStuckExactlyWhen(h, {Leader.LEADER_LOCK}, states, events, i);
  }
}
