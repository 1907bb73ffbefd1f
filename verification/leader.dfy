/** Leader election of internal/cluster/leader.go: every node competes for one advisory lock on a
    connection of its own. */
module Leader {
  import opened Common
  import opened AdvisoryLocks

  type NodeId = nat

  const LEADER_LOCK: LockId := 443198911189067267

  /** `Draining` is a node whose stop channel is closed while the heartbeat loop may still tick;
      `Drained` is the moment after wg.Wait. */
  datatype Phase = Fresh | Running | Draining | Drained | Unlocked | Stopped

  datatype Elector = Elector(phase: Phase, leader: bool, conn: Option<Session>)

  const NEW := Elector(Fresh, false, None)

  /** How pg_try_advisory_lock ends for the caller: with its answer, or with an error before or
      after the server carried it out. */
  datatype Reply = Answered | Failed | FailedAfter

  function TryLock(locks: LockTable, conn: Session, reply: Reply): LockTable {
    if reply.Failed? then locks else Acquire(locks, LEADER_LOCK, conn)
  }

  predicate Wins(locks: LockTable, conn: Session, reply: Reply) {
    reply.Answered? && Grantable(locks, LEADER_LOCK, conn)
  }

  // A failed Start closes the connection, keeps pointing at it and leaves the elector unstarted.
  function Started(e: Elector, locks: LockTable, conn: Session, reply: Reply): Elector {
    if reply.Answered? then Elector(Running, Wins(locks, conn, reply), Some(conn)) else e.(conn := Some(conn))
  }

  function TickLocks(e: Elector, locks: LockTable, reply: Reply): LockTable
    requires e.conn.Some?
  {
    if e.leader then locks else TryLock(locks, e.conn.value, reply)
  }

  function Ticked(e: Elector, locks: LockTable, reply: Reply): Elector
    requires e.conn.Some?
  {
    e.(leader := e.leader || Wins(locks, e.conn.value, reply))
  }

  function UnlockedLocks(e: Elector, locks: LockTable, delivered: bool): LockTable
    requires e.conn.Some?
  {
    if e.leader && delivered then Release(locks, LEADER_LOCK, e.conn.value) else locks
  }

  /** PGLeaderElector as an object. Stop never clears the flag. */
  class PGLeaderElector {
    const server: LockServer
    var phase: Phase
    var leader: bool
    var conn: Option<Session>

    function State(): Elector
      reads this
    {
      Elector(phase, leader, conn)
    }

    constructor (server: LockServer)
      ensures this.server == server && State() == NEW
    {
      this.server := server;
      phase, leader, conn := Fresh, false, None;
    }

    /** `connection` is what the pool hands out, if anything. */
    method Start(connection: Option<Session>, reply: Reply) returns (ok: bool)
      requires phase == Fresh
      modifies this, server
      ensures ok <==> connection.Some? && reply.Answered?
      ensures connection.None? ==> State() == old(State()) && server.locks == old(server.locks)
      ensures connection.Some? ==> State() == Started(old(State()), old(server.locks), connection.value, reply)
      ensures connection.Some? ==> server.locks == TryLock(old(server.locks), connection.value, reply)
      ensures ok ==> (leader <==> Held(server.locks, LEADER_LOCK, connection.value))
    {
      if connection.None? {
        return false;
      }
      conn := connection;
      if reply.Failed? {
        return false;
      }
      var won := server.TryAdvisoryLock(LEADER_LOCK, connection.value);
      if reply.FailedAfter? {
        return false;
      }
      leader, phase := won, Running;
      ok := true;
    }

    /** One turn of the heartbeat loop. */
    method Tick(reply: Reply)
      requires (phase == Running || phase == Draining) && conn.Some?
      modifies this, server
      ensures State() == Ticked(old(State()), old(server.locks), reply)
      ensures server.locks == TickLocks(old(State()), old(server.locks), reply)
      ensures leader && !old(leader) ==> Held(server.locks, LEADER_LOCK, conn.value)
    {
      if !leader && !reply.Failed? {
        var won := server.TryAdvisoryLock(LEADER_LOCK, conn.value);
        if reply.Answered? && won {
          leader := true;
        }
      }
    }

    /** Stop, from the closed channel to conn.Close: the connection goes back to the pool, or ends
        with the process. */
    method Stop(delivered: bool, pooled: bool)
      requires phase == Running && conn.Some?
      modifies this, server
      ensures State() == Elector(Stopped, old(leader), old(conn))
      ensures var unlocked := UnlockedLocks(old(State()), old(server.locks), delivered);
              server.locks == if pooled then unlocked else EndSessions(unlocked, {old(conn).value})
    {
      if leader && delivered {
        server.AdvisoryUnlock(LEADER_LOCK, conn.value);
      }
      if !pooled {
        server.EndSession(conn.value);
      }
      phase := Stopped;
    }
  }

  // ── The cluster ───────────────────────────────────────────────────────────────

  datatype State = State(nodes: map<NodeId, Elector>, locks: LockTable)

  datatype Event =
    | Join(n: NodeId)
    | Start(n: NodeId, conn: Session, reply: Reply)
    | Tick(n: NodeId, reply: Reply)
    | BeginStop(n: NodeId)
    | LoopEnds(n: NodeId)
    | Unlock(n: NodeId, delivered: bool)
    | CloseConn(n: NodeId, pooled: bool)
    | Crash(n: NodeId)
    | Others(locks: LockTable)

  // The connections that running electors keep to themselves.
  predicate Owns(e: Elector, x: Session) {
    e.conn == Some(x) && e.phase != Stopped && e.phase != Fresh
  }

  ghost predicate Unowned(s: State, x: Session) {
    forall n | n in s.nodes :: !Owns(s.nodes[n], x)
  }

  // Whatever document locks do, even one whose number collides with the leader lock: they happen on
  // sessions that no elector owns.
  ghost predicate ElsewhereOnly(s: State, locks: LockTable) {
    forall n, x, id :: n in s.nodes && Owns(s.nodes[n], x) ==>
      (Held(locks, id, x) <==> Held(s.locks, id, x)) && (Held(locks, id, x) ==> locks[id] == s.locks[id])
  }

  ghost predicate Enabled(s: State, e: Event) {
    match e
    case Join(n) => n !in s.nodes
    case Start(n, conn, _) => n in s.nodes && s.nodes[n].phase == Fresh && Unowned(s, conn)
    case Tick(n, _) => n in s.nodes && (s.nodes[n].phase == Running || s.nodes[n].phase == Draining) && s.nodes[n].conn.Some?
    case BeginStop(n) => n in s.nodes && s.nodes[n].phase == Running
    case LoopEnds(n) => n in s.nodes && s.nodes[n].phase == Draining
    case Unlock(n, _) => n in s.nodes && s.nodes[n].phase == Drained && s.nodes[n].conn.Some?
    case CloseConn(n, _) => n in s.nodes && s.nodes[n].phase == Unlocked && s.nodes[n].conn.Some?
    case Crash(n) => n in s.nodes
    case Others(locks) => ElsewhereOnly(s, locks)
  }

  ghost function Apply(s: State, e: Event): State
    requires Enabled(s, e)
  {
    match e
    case Join(n) => s.(nodes := s.nodes[n := NEW])
    case Start(n, conn, reply) =>
      State(s.nodes[n := Started(s.nodes[n], s.locks, conn, reply)], TryLock(s.locks, conn, reply))
    case Tick(n, reply) =>
      State(s.nodes[n := Ticked(s.nodes[n], s.locks, reply)], TickLocks(s.nodes[n], s.locks, reply))
    case BeginStop(n) => s.(nodes := s.nodes[n := s.nodes[n].(phase := Draining)])
    case LoopEnds(n) => s.(nodes := s.nodes[n := s.nodes[n].(phase := Drained)])
    case Unlock(n, delivered) =>
      State(s.nodes[n := s.nodes[n].(phase := Unlocked)], UnlockedLocks(s.nodes[n], s.locks, delivered))
    case CloseConn(n, pooled) =>
      State(s.nodes[n := s.nodes[n].(phase := Stopped)],
            if pooled then s.locks else EndSessions(s.locks, {s.nodes[n].conn.value}))
    case Crash(n) =>
      State(s.nodes - {n},
            if s.nodes[n].conn.Some? && Owns(s.nodes[n], s.nodes[n].conn.value)
            then EndSessions(s.locks, {s.nodes[n].conn.value}) else s.locks)
    case Others(locks) => s.(locks := locks)
  }

  /** A node that calls itself leader and has not let go of the lock yet. */
  predicate Leads(e: Elector) {
    e.leader && (e.phase == Running || e.phase == Draining || e.phase == Drained)
  }

  ghost predicate Safe(s: State) {
    && (forall n | n in s.nodes && (s.nodes[n].phase == Fresh) :: !s.nodes[n].leader)
    && (forall n | n in s.nodes && s.nodes[n].phase != Fresh :: s.nodes[n].conn.Some?)
    && (forall n, m, x | n in s.nodes && m in s.nodes && Owns(s.nodes[n], x) && Owns(s.nodes[m], x) :: n == m)
    && (forall n | n in s.nodes && Leads(s.nodes[n]) :: Held(s.locks, LEADER_LOCK, s.nodes[n].conn.value))
  }

  lemma StepKeepsSafe(s: State, e: Event)
    requires Safe(s) && Enabled(s, e)
    ensures Safe(Apply(s, e))
  {
    var s' := Apply(s, e);
    assert forall n | n in s.nodes && Leads(s.nodes[n]) :: Owns(s.nodes[n], s.nodes[n].conn.value);
    forall n | n in s'.nodes && Leads(s'.nodes[n])
      ensures Held(s'.locks, LEADER_LOCK, s'.nodes[n].conn.value)
    {
      LeaderKeepsLock(s, e, n);
    }
  }

  lemma LeaderKeepsLock(s: State, e: Event, n: NodeId)
    requires Safe(s) && Enabled(s, e) && n in Apply(s, e).nodes && Leads(Apply(s, e).nodes[n])
    ensures Held(Apply(s, e).locks, LEADER_LOCK, Apply(s, e).nodes[n].conn.value)
  {
    var s' := Apply(s, e);
    if n in s.nodes && Leads(s.nodes[n]) {
      var x := s.nodes[n].conn.value;
      assert Owns(s.nodes[n], x);
      if (e.CloseConn? || e.Unlock? || e.Crash?) && s.nodes[e.n].conn.Some? {
        var m := e.n;
        assert Owns(s.nodes[m], x) ==> m == n;
      }
    } else {
      assert e.Start? || e.Tick?;
    }
  }

  lemma OneLeader(s: State, n: NodeId, m: NodeId)
    requires Safe(s) && n in s.nodes && m in s.nodes && Leads(s.nodes[n]) && Leads(s.nodes[m])
    ensures n == m
  {
    var x := s.nodes[n].conn.value;
    assert s.nodes[m].conn == Some(x);
    assert Owns(s.nodes[n], x) && Owns(s.nodes[m], x);
  }

  ghost predicate Run(states: seq<State>, events: seq<Event>) {
    && |states| == |events| + 1
    && states[0] == State(map[], map[])
    && forall i | 0 <= i < |events| :: Enabled(states[i], events[i]) && states[i + 1] == Apply(states[i], events[i])
  }

  lemma {:induction false} RunsAreSafe(states: seq<State>, events: seq<Event>, i: nat)
    requires Run(states, events) && i < |states|
    ensures Safe(states[i])
  {
    if i > 0 {
      RunsAreSafe(states, events, i - 1);
      StepKeepsSafe(states[i - 1], events[i - 1]);
    }
  }

  /** At every point of every run at most one node that has not begun to give up the lock has its
      flag set, and its own session holds the lock. */
  lemma AtMostOneLeader(states: seq<State>, events: seq<Event>, i: nat, n: NodeId, m: NodeId)
    requires Run(states, events) && i < |states| && n in states[i].nodes && m in states[i].nodes
    requires Leads(states[i].nodes[n]) && Leads(states[i].nodes[m])
    ensures n == m
    ensures states[i].nodes[n].conn.Some? && Held(states[i].locks, 443198911189067267, states[i].nodes[n].conn.value)
  {
    RunsAreSafe(states, events, i);
    OneLeader(states[i], n, m);
  }

  // ── Convergence ───────────────────────────────────────────────────────────────

  ghost predicate RunningOnes(s: State, order: seq<NodeId>) {
    && (forall i | 0 <= i < |order| :: order[i] in s.nodes && s.nodes[order[i]].phase == Running && s.nodes[order[i]].conn.Some?)
    && (forall i, j | 0 <= i < j < |order| :: order[i] != order[j])
  }

  /** Every node of `order` ticks once and gets its answer. */
  ghost function Round(s: State, order: seq<NodeId>): State
    requires RunningOnes(s, order)
    decreases |order|
  {
    if order == [] then s
    else
      var s' := Apply(s, Tick(order[0], Answered));
      assert RunningOnes(s', order[1..]) by {
        forall i | 0 <= i < |order[1..]| ensures order[1..][i] == order[i + 1] {
        }
      }
      Round(s', order[1..])
  }

  // Once the lock is taken by a node, later ticks change nothing.
  lemma {:induction false} TakenStaysTaken(s: State, order: seq<NodeId>, x: Session)
    requires RunningOnes(s, order) && Held(s.locks, LEADER_LOCK, x)
    requires forall i | 0 <= i < |order| :: s.nodes[order[i]].conn.value != x && !s.nodes[order[i]].leader
    ensures Round(s, order) == s
    decreases |order|
  {
    if order != [] {
      var s' := Apply(s, Tick(order[0], Answered));
      assert s'.nodes == s.nodes && s'.locks == s.locks;
      TakenStaysTaken(s', order[1..], x);
    }
  }

  /** While the lock is free, one round of successful ticks by all running nodes, in any order, makes
      exactly the first of them leader. */
  lemma OneRoundElects(s: State, order: seq<NodeId>, n: NodeId)
    requires Safe(s) && RunningOnes(s, order) && order != []
    requires LEADER_LOCK !in s.locks
    requires n in s.nodes && s.nodes[n].phase == Running && n in order
    ensures Safe(Round(s, order))
    ensures Round(s, order).nodes.Keys == s.nodes.Keys
    ensures Round(s, order).nodes[n].leader <==> n == order[0]
  {
    var s' := Apply(s, Tick(order[0], Answered));
    StepKeepsSafe(s, Tick(order[0], Answered));
    var x := s.nodes[order[0]].conn.value;
    assert s'.nodes[order[0]].leader && Held(s'.locks, LEADER_LOCK, x);
    forall i | 1 <= i < |order|
      ensures s'.nodes[order[i]] == s.nodes[order[i]] && s'.nodes[order[i]].conn.value != x && !s'.nodes[order[i]].leader
    {
      assert order[i] != order[0];
      if s'.nodes[order[i]].conn.value == x {
        assert Owns(s'.nodes[order[i]], x) && Owns(s'.nodes[order[0]], x);
      }
    }
    TakenStaysTaken(s', order[1..], x);
  }

  /** A stopped leader makes room exactly when its unlock arrives and it had acquired the lock only
      once, or its connection really ends: conn.Close alone returns it to the pool. */
  lemma StopFreesTheLockExactlyWhen(s: State, n: NodeId, delivered: bool, pooled: bool)
    requires Safe(s) && n in s.nodes && s.nodes[n].phase == Drained && s.nodes[n].leader
    ensures var x := s.nodes[n].conn.value;
            var unlocked := Apply(s, Unlock(n, delivered));
            LEADER_LOCK !in Apply(unlocked, CloseConn(n, pooled)).locks
            <==> !pooled || (delivered && s.locks[LEADER_LOCK].count <= 1)
  {
  }

  /** Why the claim is about nodes that have not stopped: Stop leaves the flag set, so a stopped node
      and its successor both answer IsLeader with true. */
  lemma StoppedLeaderStillClaims(s: State, n: NodeId, m: NodeId)
    requires Safe(s) && n in s.nodes && m in s.nodes && n != m
    requires s.nodes[n].phase == Drained && s.nodes[n].leader && s.locks[LEADER_LOCK].count <= 1
    requires s.nodes[m].phase == Running && s.nodes[m].conn.Some?
    ensures var unlocked := Apply(s, Unlock(n, true));
            var after := Apply(unlocked, Tick(m, Answered));
            after.nodes[n].leader && after.nodes[m].leader && Leads(after.nodes[m]) && !Leads(after.nodes[n])
  {
  }

  // ── A run ─────────────────────────────────────────────────────────────────────

  ghost predicate Reached(s: State) {
    exists states, events :: Run(states, events) && states[|events|] == s
  }

  lemma ReachedNext(s: State, e: Event) returns (s': State)
    requires Reached(s) && Enabled(s, e)
    ensures s' == Apply(s, e) && Reached(s')
  {
    s' := Apply(s, e);
    var states, events :| Run(states, events) && states[|events|] == s;
    var states', events' := states + [s'], events + [e];
    forall i | 0 <= i < |events'|
      ensures Enabled(states'[i], events'[i]) && states'[i + 1] == Apply(states'[i], events'[i])
    {
      if i < |events| {
        assert states'[i] == states[i] && events'[i] == events[i];
      }
    }
    assert Run(states', events') && states'[|events'|] == s';
  }

  // Node 0 leads on session 0, node 1 follows on session 1.
  lemma LeaderAndFollowerReached() returns (s: State)
    ensures Reached(s) && s.locks == map[LEADER_LOCK := Hold(0, 1)]
    ensures s.nodes == map[0 := Elector(Running, true, Some(0)), 1 := Elector(Running, false, Some(1))]
  {
    assert Run([State(map[], map[])], []);
    var s1 := ReachedNext(State(map[], map[]), Join(0));
    var s2 := ReachedNext(s1, Start(0, 0, Answered));
    var s3 := ReachedNext(s2, Join(1));
    s := ReachedNext(s3, Start(1, 1, Answered));
  }

  /** A run at whose end the stopped node and the leader both answer IsLeader with true. */
  lemma TwoClaimsReached() returns (s: State)
    ensures Reached(s) && s.nodes.Keys == {0, 1}
    ensures s.nodes[0].phase == Stopped && s.nodes[0].leader
    ensures s.nodes[1].phase == Running && s.nodes[1].leader && Leads(s.nodes[1]) && !Leads(s.nodes[0])
  {
    var s0 := LeaderAndFollowerReached();
    var s1 := ReachedNext(s0, BeginStop(0));
    var s2 := ReachedNext(s1, LoopEnds(0));
    var s3 := ReachedNext(s2, Unlock(0, true));
    var s4 := ReachedNext(s3, CloseConn(0, true));
    s := ReachedNext(s4, Tick(1, Answered));
  }
}
