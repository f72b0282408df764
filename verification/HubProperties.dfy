/** What the hub promises, for every interleaving of agent and operator goroutines. */
module HubProperties {
  import opened Basics
  import opened Counting
  import opened Presence
  import opened Hub

  lemma {:induction false} RunKeepsInv(s: State, run: seq<Action>)
    requires Inv(s) && ValidRun(s, run)
    ensures Inv(Exec(s, run))
    decreases |run|
  {
    if run != [] {
      StepKeepsInv(s, run[0]);
      RunKeepsInv(Step(s, run[0]), run[1..]);
    }
  }

  lemma Reachable(run: seq<Action>)
    requires ValidRun(START, run)
    ensures Inv(Exec(START, run))
  {
    RunKeepsInv(START, run);
  }

  // ----- The agents map -----

  /** The connection registered last for `d` in a run, going by its actions alone. */
  function LastSwap(s: State, run: seq<Action>, d: DeviceId, sofar: Option<ConnId>): Option<ConnId>
    requires ValidRun(s, run)
    decreases |run|
  {
    if run == [] then sofar
    else
      LastSwap(Step(s, run[0]), run[1..], d,
               if run[0].AgentSwaps? && s.conns[run[0].c].device == d then Some(run[0].c) else sofar)
  }

  lemma {:induction false} LastIsLastSwap(s: State, run: seq<Action>, d: DeviceId)
    requires ValidRun(s, run)
    ensures Lookup(Exec(s, run).last, d) == LastSwap(s, run, d, Lookup(s.last, d))
    decreases |run|
  {
    if run != [] {
      LastIsLastSwap(Step(s, run[0]), run[1..], d);
    }
  }

  predicate HasLeft(run: seq<Action>, c: ConnId) { AgentLeaves(c) in run }

  lemma {:induction false} LeftIsHasLeft(s: State, run: seq<Action>, c: ConnId)
    requires ValidRun(s, run)
    ensures c in Exec(s, run).left <==> c in s.left || HasLeft(run, c)
    decreases |run|
  {
    if run != [] {
      LeftIsHasLeft(Step(s, run[0]), run[1..], c);
      assert run == [run[0]] + run[1..];
    }
  }

  /** `agents[d]` is the most recently registered connection of `d` until that connection's own cleanup
      begins, and absent from then on: no stale cleanup ever removes a newer entry. */
  lemma AgentsNameTheLatest(run: seq<Action>, d: DeviceId)
    requires ValidRun(START, run)
    ensures var latest := LastSwap(START, run, d, None);
            Lookup(Exec(START, run).agents, d) ==
              if latest.Some? && !HasLeft(run, latest.value) then latest else None
  {
    Reachable(run);
    LastIsLastSwap(START, run, d);
    var latest := LastSwap(START, run, d, None);
    if latest.Some? { LeftIsHasLeft(START, run, latest.value); }
  }

  // ----- Sessions -----

  predicate Over(v: Viewer) { v.phase.Finished? || v.phase.Refused? }

  lemma OverLeavesNothing(s: State)
    requires SessionsOwned(s) && WatchedOwned(s) && MutuallyInverse(s.store)
    requires forall v :: v in s.people ==> Over(s.people[v])
    ensures s.store.sessions == map[] && s.store.deviceSess == map[] && s.watched == map[]
  {
  }

  /** With every operator gone or refused, no session, no claim and no reachable viewer is left. */
  lemma NothingLeaks(run: seq<Action>)
    requires ValidRun(START, run)
    requires forall v :: v in Exec(START, run).people ==> Over(Exec(START, run).people[v])
    ensures var s := Exec(START, run);
            s.store.sessions == map[] && s.store.deviceSess == map[] && s.watched == map[]
  {
    Reachable(run);
    OverLeavesNothing(Exec(START, run));
  }

  /** How many steps of its own goroutine and teardown an operator is from having left no trace. */
  function StepsToFinish(v: Viewer): nat {
    match v.phase
    case Finished => 0
    case Refused => 0
    case Ending => 1 + TeardownLeft(v.end)
    case Watching => 2 + TeardownLeft(v.end)
    case Claimed => 6
    case Opening => 7
  }

  function TeardownLeft(e: EndState): nat {
    match e case NotEnded => 2 case Removing => 2 case Releasing => 1 case Released => 0
  }

  /** The next step that takes operator `v` towards its end, whoever is running `endSession`. */
  function NextFor(s: State, v: SessionId): Action
    requires v in s.people
  {
    match s.people[v].phase
    case Opening => ViewerClaims(v, 0)
    case Claimed => ViewerRegisters(v)
    case Watching => ViewerLeaves(v)
    case _ =>
      if s.people[v].end.Removing? then EndRemoves(v)
      else if s.people[v].end.Releasing? then EndReleases(v, 0)
      else ViewerDone(v)
  }

  lemma NextAdvances(s: State, v: SessionId)
    requires Lifecycles(s) && v in s.people && !Over(s.people[v])
    ensures Enabled(s, NextFor(s, v)) && v in Step(s, NextFor(s, v)).people
    ensures StepsToFinish(Step(s, NextFor(s, v)).people[v]) < StepsToFinish(s.people[v])
  {
  }

  lemma NobodySendsBack(s: State, v: SessionId, a: Action)
    requires Lifecycles(s) && v in s.people && Enabled(s, a)
    ensures v in Step(s, a).people && StepsToFinish(Step(s, a).people[v]) <= StepsToFinish(s.people[v])
  {
    if OfAgent(a) { AgentSendsNoneBack(s, v, a); }
  }

  lemma AgentSendsNoneBack(s: State, v: SessionId, a: Action)
    requires Lifecycles(s) && v in s.people && Enabled(s, a) && OfAgent(a)
    ensures v in Step(s, a).people && StepsToFinish(Step(s, a).people[v]) <= StepsToFinish(s.people[v])
  {
  }

  /** No operator is ever stuck, and no step of anybody sends one back: its own steps, at most seven of
      them, always end it. */
  lemma OperatorsAlwaysEnd(run: seq<Action>, v: SessionId, a: Action)
    requires ValidRun(START, run) && v in Exec(START, run).people && Enabled(Exec(START, run), a)
    ensures var s := Exec(START, run);
            && v in Step(s, a).people
            && StepsToFinish(Step(s, a).people[v]) <= StepsToFinish(s.people[v]) <= 7
            && (!Over(s.people[v]) ==>
                  Enabled(s, NextFor(s, v)) && v in Step(s, NextFor(s, v)).people &&
                  StepsToFinish(Step(s, NextFor(s, v)).people[v]) < StepsToFinish(s.people[v]))
  {
    Reachable(run);
    var s := Exec(START, run);
    NobodySendsBack(s, v, a);
    if !Over(s.people[v]) { NextAdvances(s, v); }
  }

  /** How many steps a connection is from being gone: its own, and in its cleanup those of the `endSession` it
      waits for, whoever is running that. */
  function StepsToGone(s: State, c: ConnId): nat
    requires c in s.conns
  {
    match s.conns[c].phase
    case Arriving => 8
    case Swapped => 7
    case Serving => 6
    case Leaving(viewer) => 2 + EndLeft(s, viewer)
    case Departing => 1
    case Gone => 0
  }

  function EndLeft(s: State, viewer: Option<SessionId>): nat {
    if viewer.None? || viewer.value !in s.people then 0
    else
      match s.people[viewer.value].end
      case NotEnded => 3
      case Removing => 2
      case Releasing => 1
      case Released => 0
  }

  /** The next step that takes connection `c` towards its end. */
  function NextForAgent(s: State, c: ConnId): Action
    requires c in s.conns
  {
    match s.conns[c].phase
    case Arriving => AgentSwaps(c)
    case Swapped => AgentOnline(c, DeviceMeta("", "", "", None, None), 0)
    case Serving => AgentLeaves(c)
    case Leaving(viewer) =>
      if viewer.None? || viewer.value !in s.people then AgentMovesOn(c)
      else
        (match s.people[viewer.value].end
         case NotEnded => AgentEndsViewer(c)
         case Removing => EndRemoves(viewer.value)
         case Releasing => EndReleases(viewer.value, 0)
         case Released => AgentMovesOn(c))
    case _ => AgentOffline(c, 0)
  }

  lemma NextAdvancesAgent(s: State, c: ConnId)
    requires LeavingSettled(s) && c in s.conns && !s.conns[c].phase.Gone?
    ensures Enabled(s, NextForAgent(s, c)) && c in Step(s, NextForAgent(s, c)).conns
    ensures StepsToGone(Step(s, NextForAgent(s, c)), c) < StepsToGone(s, c)
  {
  }

  lemma NobodyHoldsUp(s: State, c: ConnId, a: Action)
    requires LeavingSettled(s) && c in s.conns && Enabled(s, a)
    ensures c in Step(s, a).conns && StepsToGone(Step(s, a), c) <= StepsToGone(s, c)
  {
    if OfAgent(a) { NoAgentHoldsUp(s, c, a); }
  }

  lemma NoAgentHoldsUp(s: State, c: ConnId, a: Action)
    requires LeavingSettled(s) && c in s.conns && Enabled(s, a) && OfAgent(a)
    ensures c in Step(s, a).conns && StepsToGone(Step(s, a), c) <= StepsToGone(s, c)
  {
  }

  /** No connection is ever stuck, not even in the cleanup that waits for an operator's `endSession`, and no step of
      anybody sends one back: five steps, known beforehand, always take a leaving one to its end. */
  lemma AgentsAlwaysGo(run: seq<Action>, c: ConnId, a: Action)
    requires ValidRun(START, run) && c in Exec(START, run).conns && Enabled(Exec(START, run), a)
    ensures var s := Exec(START, run);
            && c in Step(s, a).conns
            && StepsToGone(Step(s, a), c) <= StepsToGone(s, c) <= 8
            && (s.conns[c].phase.Leaving? ==> StepsToGone(s, c) <= 5)
            && (!s.conns[c].phase.Gone? ==>
                  Enabled(s, NextForAgent(s, c)) && c in Step(s, NextForAgent(s, c)).conns &&
                  StepsToGone(Step(s, NextForAgent(s, c)), c) < StepsToGone(s, c))
  {
    Reachable(run);
    var s := Exec(START, run);
    NobodyHoldsUp(s, c, a);
    if !s.conns[c].phase.Gone? { NextAdvancesAgent(s, c); }
  }

  /** The schedule itself. */
  lemma {:induction false} WayOut(s: State, c: ConnId) returns (r: seq<Action>)
    requires Inv(s) && c in s.conns
    ensures |r| <= StepsToGone(s, c) && ValidRun(s, r)
    ensures c in Exec(s, r).conns && Exec(s, r).conns[c].phase.Gone?
    decreases StepsToGone(s, c)
  {
    if s.conns[c].phase.Gone? {
      r := [];
    } else {
      var a := NextForAgent(s, c);
      NextAdvancesAgent(s, c);
      StepKeepsInv(s, a);
      var rest := WayOut(Step(s, a), c);
      r := [a] + rest;
      assert r[1..] == rest;
    }
  }

  /** The registry is released once per operator, and after that its session id is in neither the registry
      nor the hub's map, for ever. */
  lemma {:induction false} EndedForEver(s: State, v: SessionId, run: seq<Action>)
    requires Inv(s) && v in s.people && s.people[v].end.Released? && ValidRun(s, run)
    ensures var s' := Exec(s, run);
            && v !in s'.store.sessions && (forall d :: d in s'.watched ==> s'.watched[d] != v)
            && (forall d :: d in s'.store.deviceSess ==> s'.store.deviceSess[d] != v)
            && Times(s'.released, v) == 1
    decreases |run|
  {
    if run != [] {
      StepKeepsInv(s, run[0]);
      EndedForEver(Step(s, run[0]), v, run[1..]);
    }
  }

  lemma EndTakesEffectOnce(run: seq<Action>, v: SessionId)
    requires ValidRun(START, run)
    ensures Times(Exec(START, run).released, v) <= 1
  {
    Reachable(run);
    var s := Exec(START, run);
    TimesZero(s.released, v);
  }

  /** A late `EndSession` touches no claim but its own: whoever claimed the device since keeps it. */
  lemma LateEndIsHarmless(run: seq<Action>, v: SessionId, now: Instant, d: DeviceId)
    requires ValidRun(START, run) && Enabled(Exec(START, run), EndReleases(v, now))
    requires d in Exec(START, run).store.deviceSess && Exec(START, run).store.deviceSess[d] != v
    ensures var s := Exec(START, run); var s' := Step(s, EndReleases(v, now));
            && d in s'.store.deviceSess && s'.store.deviceSess[d] == s.store.deviceSess[d]
            && (d in s.store.devices ==> d in s'.store.devices && s'.store.devices[d] == s.store.devices[d])
  {
    Reachable(run);
  }

  // ----- Two claims that fail, and exactly when -----

  /** Every device with a serving agent socket in the map has a presence record. */
  ghost predicate LiveAgentsArePresent(s: State) {
    forall d :: d in s.agents && s.agents[d] in s.conns && s.conns[s.agents[d]].phase.Serving? ==> d in s.store.devices
  }

  /** The device that a step takes offline in the store: at the end of a connection's cleanup, or because an
      administrator deletes it. Neither looks at the agents map. */
  function TakenOffline(s: State, a: Action): Option<DeviceId>
    requires Enabled(s, a)
  {
    if a.AgentOffline? then Some(s.conns[a.c].device)
    else if a.Housekeeping? && a.op.SetOffline? then Some(a.op.device)
    else None
  }

  /** A device taken offline while a connection is serving it. */
  predicate OfflineUnderAgent(s: State, a: Action) {
    && Enabled(s, a)
    && var d := TakenOffline(s, a);
    d.Some? && d.value in s.agents && s.agents[d.value] in s.conns && s.conns[s.agents[d.value]].phase.Serving?
  }

  lemma ViewerKeepsLiveAgents(s: State, a: Action)
    requires LiveAgentsArePresent(s) && Enabled(s, a) && !OfAgent(a) && !OfflineUnderAgent(s, a)
    ensures LiveAgentsArePresent(Step(s, a))
  {
  }

  /** A live socket means a present device until the device is taken offline under it: by the cleanup of an
      evicted connection, which guards the map but not the store, or by its deletion. Those steps break it and
      no others do. */
  lemma LiveAgentIsPresentIff(s: State, a: Action)
    requires AgentsAreLatest(s) && LiveAgentsArePresent(s) && Enabled(s, a)
    ensures LiveAgentsArePresent(Step(s, a)) <==> !OfflineUnderAgent(s, a)
  {
    if OfflineUnderAgent(s, a) {
      var d := TakenOffline(s, a).value;
      assert d in Step(s, a).agents && Step(s, a).conns[Step(s, a).agents[d]].phase.Serving?;
    } else if !OfAgent(a) {
      ViewerKeepsLiveAgents(s, a);
    }
  }

  lemma {:induction false} Extend(s: State, run: seq<Action>, a: Action) returns (r: seq<Action>)
    requires ValidRun(s, run) && Enabled(Exec(s, run), a)
    ensures r == run + [a] && ValidRun(s, r) && Exec(s, r) == Step(Exec(s, run), a)
    decreases |run|
  {
    r := run + [a];
    if run != [] {
      var rest := Extend(Step(s, run[0]), run[1..], a);
      assert r[1..] == rest;
    } else {
      assert r[1..] == [];
    }
  }

  /** A connection comes up for a device nobody serves. */
  lemma Connect(run: seq<Action>, c: ConnId, d: DeviceId, meta: DeviceMeta) returns (r: seq<Action>)
    requires ValidRun(START, run) && c !in Exec(START, run).conns
    ensures ValidRun(START, r)
    ensures var s, s' := Exec(START, run), Exec(START, r);
            && s'.conns == s.conns[c := Conn(d, Serving)] && s'.agents == s.agents[d := c]
            && s'.watched == s.watched && s'.people == s.people && s'.store == Apply(s.store, SetOnline(d, meta, 0))
  {
    r := Extend(START, run, AgentArrives(c, d));
    r := Extend(START, r, AgentSwaps(c));
    r := Extend(START, r, AgentOnline(c, meta, 0));
  }

  /** Both are reachable. Reconnect before the old socket's cleanup has finished: */
  lemma StaleOfflineHappens(d: DeviceId, meta: DeviceMeta) returns (r: seq<Action>)
    ensures ValidRun(START, r)
    ensures var s := Exec(START, r);
            d in s.agents && s.agents[d] == 2 && 2 in s.conns && s.conns[2].phase.Serving? && d !in s.store.devices
  {
    r := Connect([], 1, d, meta);
    r := Extend(START, r, AgentArrives(2, d));
    r := Extend(START, r, AgentSwaps(2));
    r := Extend(START, r, AgentLeaves(1));
    r := Extend(START, r, AgentOnline(2, meta, 0));
    r := Extend(START, r, AgentMovesOn(1));
    r := Extend(START, r, AgentOffline(1, 0));
  }

  /** And delete a device whose agent is connected: */
  lemma DeletionUnderAgentHappens(d: DeviceId, meta: DeviceMeta) returns (r: seq<Action>)
    ensures ValidRun(START, r)
    ensures var s := Exec(START, r);
            && d in s.agents && s.agents[d] == 1 && s.conns == map[1 := Conn(d, Serving)] && s.people == map[]
            && d !in s.store.devices && d !in s.store.deviceSess
  {
    r := Connect([], 1, d, meta);
    r := Extend(START, r, Housekeeping(SetOffline(d, 0)));
  }

  /** The operator the hub routes to, while its teardown has not begun, holds the device's claim. */
  ghost predicate OperatorHoldsClaim(s: State) {
    forall d :: d in s.watched && s.watched[d] in s.people && s.people[s.watched[d]].end.NotEnded? ==>
      d in s.store.deviceSess && s.store.deviceSess[d] == s.watched[d]
  }

  /** The claim goes from under a registered operator with the device, or an operator registers after losing
      its claim. */
  predicate ClaimLost(s: State, a: Action)
    requires Enabled(s, a)
  {
    || (TakenOffline(s, a).Some? && var d := TakenOffline(s, a).value;
        d in s.watched && s.watched[d] in s.people && s.people[s.watched[d]].end.NotEnded? && d in s.store.devices)
    || (a.ViewerRegisters? && Lookup(s.store.deviceSess, s.people[a.v].device) != Some(a.v))
  }

  lemma AgentKeepsOperators(s: State, a: Action)
    requires OperatorHoldsClaim(s) && Enabled(s, a) && OfAgent(a) && !ClaimLost(s, a)
    ensures OperatorHoldsClaim(Step(s, a))
  {
  }

  lemma HousekeepingKeepsOperators(s: State, op: Op)
    requires OperatorHoldsClaim(s) && Enabled(s, Housekeeping(op)) && !ClaimLost(s, Housekeeping(op))
    ensures OperatorHoldsClaim(Step(s, Housekeeping(op)))
  {
  }

  lemma ReleaseKeepsOperators(s: State, v: SessionId, now: Instant)
    requires WatchedOwned(s) && SessionsOwned(s) && MutuallyInverse(s.store) && OperatorHoldsClaim(s)
    requires Enabled(s, EndReleases(v, now))
    ensures OperatorHoldsClaim(Step(s, EndReleases(v, now)))
  {
  }

  lemma ViewerKeepsOperators(s: State, a: Action)
    requires WatchedOwned(s) && OperatorHoldsClaim(s) && Enabled(s, a) && !OfAgent(a) && !ClaimLost(s, a)
    requires !a.Housekeeping? && !a.EndReleases?
    ensures OperatorHoldsClaim(Step(s, a))
  {
  }

  lemma LostClaimShows(s: State, a: Action)
    requires WatchedOwned(s) && Lifecycles(s) && Enabled(s, a) && ClaimLost(s, a)
    ensures !OperatorHoldsClaim(Step(s, a))
  {
    var s' := Step(s, a);
    var d := if a.ViewerRegisters? then s.people[a.v].device else TakenOffline(s, a).value;
    assert d in s'.watched && s'.people[s'.watched[d]].end.NotEnded?;
  }

  /** The operator the hub routes to holds the claim until one of those steps, and no longer. */
  lemma OperatorHoldsClaimIff(s: State, a: Action)
    requires Inv(s) && OperatorHoldsClaim(s) && Enabled(s, a)
    ensures OperatorHoldsClaim(Step(s, a)) <==> !ClaimLost(s, a)
  {
    if ClaimLost(s, a) {
      LostClaimShows(s, a);
    } else if OfAgent(a) {
      AgentKeepsOperators(s, a);
    } else {
      match a
      case Housekeeping(op) => HousekeepingKeepsOperators(s, op);
      case EndReleases(v, now) => ReleaseKeepsOperators(s, v, now);
      case _ => ViewerKeepsOperators(s, a);
    }
  }

  /** Connection 1 of `d` connects and operator `v` claims the device. */
  lemma ConnectAndClaim(d: DeviceId, v: SessionId, admin: string, meta: DeviceMeta) returns (r: seq<Action>)
    ensures ValidRun(START, r)
    ensures var s := Exec(START, r);
            && s.conns == map[1 := Conn(d, Serving)] && s.watched == map[] && d in s.agents
            && s.people == map[v := Viewer(d, admin, Claimed, NotEnded)]
            && d in s.store.devices && s.store.deviceSess == map[d := v]
  {
    r := Connect([], 1, d, meta);
    r := Extend(START, r, ViewerOpens(v, d, admin));
    r := Extend(START, r, ViewerClaims(v, 0));
  }

  /** Losing the claim is reachable: the device goes offline between an operator's claim and its registration, */
  lemma ClaimLostHappens(d: DeviceId, v: SessionId, admin: string, meta: DeviceMeta) returns (r: seq<Action>)
    ensures ValidRun(START, r)
    ensures var s := Exec(START, r); d in s.watched && s.watched[d] == v && d !in s.store.deviceSess
  {
    r := ConnectAndClaim(d, v, admin, meta);
    r := Extend(START, r, AgentLeaves(1));
    r := Extend(START, r, AgentMovesOn(1));
    r := Extend(START, r, AgentOffline(1, 0));
    r := Extend(START, r, ViewerRegisters(v));
  }

  /** or it is deleted under an operator who is watching it, with the agent still connected. */
  lemma DeletionUnderOperatorHappens(d: DeviceId, v: SessionId, admin: string, meta: DeviceMeta)
    returns (r: seq<Action>)
    ensures ValidRun(START, r)
    ensures var s := Exec(START, r);
            && d in s.watched && s.watched[d] == v && v in s.people && s.people[v].end.NotEnded?
            && d in s.agents && d !in s.store.deviceSess && v !in s.store.sessions
  {
    r := ConnectAndClaim(d, v, admin, meta);
    r := Extend(START, r, ViewerRegisters(v));
    r := Extend(START, r, Housekeeping(SetOffline(d, 0)));
    Reachable(r);
  }
}
