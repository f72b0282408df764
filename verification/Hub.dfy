/** The signalling hub: agent sockets and operator sockets registering and cleaning up on their own
    goroutines, and heartbeats, reassignments and device deletions coming in beside them, over the presence
    store. Every section under the hub's lock, and every store operation, is
    one atomic step; a run is any interleaving. A viewer is named by its session id, and `endOnce` is the
    `end` field: the body of `endSession` runs once, and every caller waits for it. */
module Hub {
  import opened Basics
  import opened Counting
  import opened Presence

  type ConnId = nat

  /** Where an agent connection's goroutine stands: `Swapped` is in the map but not yet announced online,
      `Leaving` has left the map and has the viewer it found in hand, `Departing` is about to go offline. */
  datatype ConnPhase = Arriving | Swapped | Serving | Leaving(viewer: Option<SessionId>) | Departing | Gone

  datatype Conn = Conn(device: DeviceId, phase: ConnPhase)

  /** Where an operator's goroutine stands. */
  datatype ViewerPhase = Opening | Claimed | Watching | Ending | Finished | Refused

  /** How far the single run of `endSession`'s body has come. */
  datatype EndState = NotEnded | Removing | Releasing | Released

  datatype Viewer = Viewer(device: DeviceId, admin: string, phase: ViewerPhase, end: EndState)

  /** `last` and `left` are history: the latest connection registered for each device, and the connections
      whose cleanup has begun. `released` lists the sessions `EndSession` was called for. */
  datatype State = State(
    agents: map<DeviceId, ConnId>, watched: map<DeviceId, SessionId>, store: Store,
    conns: map<ConnId, Conn>, people: map<SessionId, Viewer>,
    last: map<DeviceId, ConnId>, left: set<ConnId>, released: seq<SessionId>)

  const START := State(map[], map[], EMPTY, map[], map[], map[], {}, [])

  datatype Action =
    | AgentArrives(c: ConnId, device: DeviceId)
    | AgentSwaps(c: ConnId)
    | AgentOnline(c: ConnId, meta: DeviceMeta, now: Instant)
    | AgentLeaves(c: ConnId)
    | AgentEndsViewer(c: ConnId)
    | AgentMovesOn(c: ConnId)
    | AgentOffline(c: ConnId, now: Instant)
    | ViewerOpens(v: SessionId, device: DeviceId, admin: string)
    | ViewerClaims(v: SessionId, now: Instant)
    | ViewerRegisters(v: SessionId)
    | ViewerLeaves(v: SessionId)
    | EndRemoves(v: SessionId)
    | EndReleases(v: SessionId, now: Instant)
    | ViewerDone(v: SessionId)
    | Housekeeping(op: Op)  // a heartbeat, or the handlers that reassign and delete devices

  /** Deletes `k` only while it still names `x`. */
  function RemoveIf<K, V(==)>(m: map<K, V>, k: K, x: V): map<K, V> {
    if k in m && m[k] == x then m - {k} else m
  }

  function Lookup<K, V>(m: map<K, V>, k: K): Option<V> {
    if k in m then Some(m[k]) else None
  }

  function SetConn(s: State, c: ConnId, p: ConnPhase): map<ConnId, Conn>
    requires c in s.conns
  {
    s.conns[c := s.conns[c].(phase := p)]
  }

  /** Entering `endSession`: only the first caller starts the body. */
  function EnterEnd(e: EndState): EndState { if e.NotEnded? then Removing else e }

  predicate Enabled(s: State, a: Action) {
    match a
    case AgentArrives(c, _) => c !in s.conns
    case AgentSwaps(c) => c in s.conns && s.conns[c].phase.Arriving?
    case AgentOnline(c, _, _) => c in s.conns && s.conns[c].phase.Swapped?
    case AgentLeaves(c) => c in s.conns && s.conns[c].phase.Serving?
    case AgentEndsViewer(c) =>
      c in s.conns && s.conns[c].phase.Leaving? && s.conns[c].phase.viewer.Some? && s.conns[c].phase.viewer.value in s.people
    case AgentMovesOn(c) =>
      c in s.conns && s.conns[c].phase.Leaving? &&
      (s.conns[c].phase.viewer.Some? ==>
         s.conns[c].phase.viewer.value in s.people && s.people[s.conns[c].phase.viewer.value].end.Released?)
    case AgentOffline(c, _) => c in s.conns && s.conns[c].phase.Departing?
    case ViewerOpens(v, d, _) => v !in s.people && d in s.agents
    case ViewerClaims(v, _) => v in s.people && s.people[v].phase.Opening?
    case ViewerRegisters(v) => v in s.people && s.people[v].phase.Claimed?
    case ViewerLeaves(v) => v in s.people && s.people[v].phase.Watching?
    case EndRemoves(v) => v in s.people && s.people[v].end.Removing?
    case EndReleases(v, _) => v in s.people && s.people[v].end.Releasing?
    case ViewerDone(v) => v in s.people && s.people[v].phase.Ending? && s.people[v].end.Released?
    case Housekeeping(op) => op.Touch? || op.Reassign? || op.SetOffline?
  }

  function AgentStep(s: State, a: Action): State
    requires Enabled(s, a)
  {
    match a
    case AgentArrives(c, d) => s.(conns := s.conns[c := Conn(d, Arriving)])
    case AgentSwaps(c) =>
      var d := s.conns[c].device;
      s.(agents := s.agents[d := c], conns := SetConn(s, c, Swapped), last := s.last[d := c])
    case AgentOnline(c, meta, now) =>
      s.(store := Apply(s.store, SetOnline(s.conns[c].device, meta, now)), conns := SetConn(s, c, Serving))
    case AgentLeaves(c) =>
      var d := s.conns[c].device;
      s.(agents := RemoveIf(s.agents, d, c), conns := SetConn(s, c, Leaving(Lookup(s.watched, d))), left := s.left + {c})
    case AgentEndsViewer(c) =>
      var v := s.conns[c].phase.viewer.value;
      s.(people := s.people[v := s.people[v].(end := EnterEnd(s.people[v].end))])
    case AgentMovesOn(c) => s.(conns := SetConn(s, c, Departing))
    case AgentOffline(c, now) =>
      s.(store := Apply(s.store, SetOffline(s.conns[c].device, now)), conns := SetConn(s, c, Gone))
    case _ => s
  }

  function ViewerStep(s: State, a: Action): State
    requires Enabled(s, a)
  {
    match a
    case ViewerOpens(v, d, admin) => s.(people := s.people[v := Viewer(d, admin, Opening, NotEnded)])
    case ViewerClaims(v, now) =>
      var d := s.people[v].device;
      var phase := if d in s.store.deviceSess then Refused else Claimed;
      s.(store := Apply(s.store, Register(v, d, s.people[v].admin, "view", now)),
         people := s.people[v := s.people[v].(phase := phase)])
    case ViewerRegisters(v) =>
      s.(watched := s.watched[s.people[v].device := v], people := s.people[v := s.people[v].(phase := Watching)])
    case ViewerLeaves(v) =>
      s.(people := s.people[v := s.people[v].(phase := Ending, end := EnterEnd(s.people[v].end))])
    case EndRemoves(v) =>
      s.(watched := RemoveIf(s.watched, s.people[v].device, v), people := s.people[v := s.people[v].(end := Releasing)])
    case EndReleases(v, now) =>
      s.(store := Apply(s.store, End(v, now)), people := s.people[v := s.people[v].(end := Released)],
         released := s.released + [v])
    case ViewerDone(v) => s.(people := s.people[v := s.people[v].(phase := Finished)])
    case Housekeeping(op) => s.(store := Apply(s.store, op))
    case _ => s
  }

  predicate OfAgent(a: Action) {
    a.AgentArrives? || a.AgentSwaps? || a.AgentOnline? || a.AgentLeaves? || a.AgentEndsViewer? || a.AgentMovesOn? ||
    a.AgentOffline?
  }

  function Step(s: State, a: Action): State
    requires Enabled(s, a)
  {
    if OfAgent(a) then AgentStep(s, a) else ViewerStep(s, a)
  }

  predicate ValidRun(s: State, run: seq<Action>)
    decreases |run|
  {
    run == [] || (Enabled(s, run[0]) && ValidRun(Step(s, run[0]), run[1..]))
  }

  function Exec(s: State, run: seq<Action>): State
    requires ValidRun(s, run)
    decreases |run|
  {
    if run == [] then s else Exec(Step(s, run[0]), run[1..])
  }

  // ----- Invariant -----

  /** The map names the latest registration until that one's cleanup begins, and then nothing. */
  ghost predicate AgentsAreLatest(s: State) {
    && (forall d :: d in s.agents <==> d in s.last && s.last[d] !in s.left)
    && (forall d :: d in s.agents ==> s.agents[d] == s.last[d])
    && (forall d :: d in s.last ==> s.last[d] in s.conns && s.conns[s.last[d]].device == d)
    && (forall c :: c in s.conns ==>
          (c in s.left <==> !s.conns[c].phase.Arriving? && !s.conns[c].phase.Swapped? && !s.conns[c].phase.Serving?))
    && (forall c :: c in s.left ==> c in s.conns)
    && (forall d :: d in s.last ==> !s.conns[s.last[d]].phase.Arriving?)
  }

  /** Where a viewer's goroutine is, and where its teardown is, go together. */
  predicate Lifecycle(v: Viewer) {
    && (v.phase.Opening? || v.phase.Claimed? || v.phase.Refused? ==> v.end.NotEnded?)
    && (v.phase.Ending? ==> !v.end.NotEnded?)
    && (v.phase.Finished? ==> v.end.Released?)
  }

  predicate HoldsMaybe(v: Viewer) {
    (v.phase.Claimed? || v.phase.Watching? || v.phase.Ending?) && !v.end.Released?
  }

  ghost predicate Lifecycles(s: State) {
    forall v :: v in s.people ==> Lifecycle(s.people[v])
  }

  /** Every session in the registry belongs to a viewer that has claimed and not yet released. */
  ghost predicate SessionsOwned(s: State) {
    forall id :: id in s.store.sessions ==>
      && id in s.people && HoldsMaybe(s.people[id]) && s.store.sessions[id].device == s.people[id].device
      && s.store.sessions[id].admin == s.people[id].admin && s.store.sessions[id].mode == "view"
  }

  /** Every viewer the hub can reach is registered on that device and not yet removed. */
  ghost predicate WatchedOwned(s: State) {
    forall d :: d in s.watched ==>
      && s.watched[d] in s.people && s.people[s.watched[d]].device == d
      && (s.people[s.watched[d]].phase.Watching? || s.people[s.watched[d]].phase.Ending?)
      && (s.people[s.watched[d]].end.NotEnded? || s.people[s.watched[d]].end.Removing?)
  }

  /** A leaving agent ends only a viewer that was registered. */
  ghost predicate LeavingSettled(s: State) {
    forall c :: c in s.conns && s.conns[c].phase.Leaving? && s.conns[c].phase.viewer.Some? ==>
      && s.conns[c].phase.viewer.value in s.people
      && Registered(s.people[s.conns[c].phase.viewer.value])
  }

  predicate Registered(v: Viewer) { v.phase.Watching? || v.phase.Ending? || v.phase.Finished? }

  ghost predicate ReleasedOnce(s: State) {
    && (forall v :: v in s.people ==> Times(s.released, v) == if s.people[v].end.Released? then 1 else 0)
    && (forall v :: v in s.released ==> v in s.people)
  }

  ghost predicate Inv(s: State) {
    && AgentsAreLatest(s) && Lifecycles(s) && SessionsOwned(s) && WatchedOwned(s) && LeavingSettled(s)
    && ReleasedOnce(s) && Consistent(s.store)
  }

  // ----- Every step keeps the invariant -----

  lemma AgentKeepsAgents(s: State, a: Action)
    requires AgentsAreLatest(s) && Enabled(s, a) && OfAgent(a)
    ensures AgentsAreLatest(Step(s, a))
  {
  }

  lemma AgentKeepsViewers(s: State, a: Action)
    requires Lifecycles(s) && WatchedOwned(s) && LeavingSettled(s) && Enabled(s, a) && OfAgent(a)
    ensures Lifecycles(Step(s, a)) && WatchedOwned(Step(s, a))
  {
  }

  lemma AgentKeepsSessions(s: State, a: Action)
    requires Lifecycles(s) && SessionsOwned(s) && LeavingSettled(s) && Enabled(s, a) && OfAgent(a)
    ensures SessionsOwned(Step(s, a))
  {
  }

  lemma AgentKeepsLeaving(s: State, a: Action)
    requires WatchedOwned(s) && LeavingSettled(s) && Enabled(s, a) && OfAgent(a)
    ensures LeavingSettled(Step(s, a))
  {
  }

  lemma AgentKeepsStore(s: State, a: Action)
    requires Inv(s) && Enabled(s, a) && OfAgent(a)
    ensures Consistent(Step(s, a).store) && ReleasedOnce(Step(s, a))
  {
    match a
    case AgentOnline(c, meta, now) =>
      StepKeepsInverse(s.store, SetOnline(s.conns[c].device, meta, now));
      StepKeepsStatus(s.store, SetOnline(s.conns[c].device, meta, now));
    case AgentOffline(c, now) =>
      StepKeepsInverse(s.store, SetOffline(s.conns[c].device, now));
      StepKeepsStatus(s.store, SetOffline(s.conns[c].device, now));
    case _ =>
  }

  lemma ReleaseKeepsSessions(s: State, v: SessionId, now: Instant)
    requires SessionsOwned(s) && Enabled(s, EndReleases(v, now))
    ensures SessionsOwned(Step(s, EndReleases(v, now)))
  {
    assert v !in Apply(s.store, End(v, now)).sessions;
  }

  lemma TeardownKeepsSessions(s: State, a: Action)
    requires Lifecycles(s) && SessionsOwned(s) && Enabled(s, a) && (a.EndRemoves? || a.EndReleases? || a.ViewerDone?)
    ensures SessionsOwned(Step(s, a))
  {
    if a.EndReleases? { ReleaseKeepsSessions(s, a.v, a.now); }
  }

  lemma ViewerKeepsSessions(s: State, a: Action)
    requires Lifecycles(s) && SessionsOwned(s) && Enabled(s, a) && !OfAgent(a)
    ensures SessionsOwned(Step(s, a))
  {
    if a.EndRemoves? || a.EndReleases? || a.ViewerDone? { TeardownKeepsSessions(s, a); }
  }

  lemma ViewerKeepsWatched(s: State, a: Action)
    requires Lifecycles(s) && WatchedOwned(s) && Enabled(s, a) && !OfAgent(a)
    ensures Lifecycles(Step(s, a)) && WatchedOwned(Step(s, a))
  {
  }

  lemma ViewerKeepsLeaving(s: State, a: Action)
    requires LeavingSettled(s) && Enabled(s, a) && !OfAgent(a)
    ensures LeavingSettled(Step(s, a))
  {
  }

  lemma ViewerKeepsReleased(s: State, a: Action)
    requires Lifecycles(s) && ReleasedOnce(s) && AgentsAreLatest(s) && Enabled(s, a) && !OfAgent(a)
    ensures ReleasedOnce(Step(s, a)) && AgentsAreLatest(Step(s, a))
  {
    if a.EndReleases? {
      forall v: SessionId ensures Times(s.released + [a.v], v) == Times(s.released, v) + (if v == a.v then 1 else 0) {
        TimesJoin(s.released, [a.v], v);
      }
    } else if a.ViewerOpens? {
      TimesZero(s.released, a.v);
    }
  }

  lemma ViewerKeepsStore(s: State, a: Action)
    requires Inv(s) && Enabled(s, a) && !OfAgent(a)
    ensures Consistent(Step(s, a).store)
  {
    match a
    case ViewerClaims(v, now) =>
      StepKeepsInverse(s.store, Register(v, s.people[v].device, s.people[v].admin, "view", now));
      StepKeepsStatus(s.store, Register(v, s.people[v].device, s.people[v].admin, "view", now));
    case EndReleases(v, now) =>
      StepKeepsInverse(s.store, End(v, now));
      StepKeepsStatus(s.store, End(v, now));
    case Housekeeping(op) =>
      StepKeepsInverse(s.store, op);
      StepKeepsStatus(s.store, op);
    case _ =>
  }

  lemma StepKeepsInv(s: State, a: Action)
    requires Inv(s) && Enabled(s, a)
    ensures Inv(Step(s, a))
  {
    if OfAgent(a) {
      AgentKeepsAgents(s, a);
      AgentKeepsViewers(s, a);
      AgentKeepsSessions(s, a);
      AgentKeepsLeaving(s, a);
      AgentKeepsStore(s, a);
    } else {
      ViewerKeepsSessions(s, a);
      ViewerKeepsWatched(s, a);
      ViewerKeepsLeaving(s, a);
      ViewerKeepsReleased(s, a);
      ViewerKeepsStore(s, a);
    }
  }
}
