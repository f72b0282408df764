/** The hub and a dashboard together: the store operations a dashboard follows are those the hub's goroutines and
    the administrators' handlers make, in whatever order they make them, and published in whatever order. */
module HubFeed {
  import opened Basics
  import opened Presence
  import F = PresenceFeed
  import H = Hub
  import P = HubProperties

  datatype System = System(hub: H.State, line: F.Line)

  /** A dashboard opened on a hub. */
  function Opened(hub: H.State, who: F.Watcher): System { System(hub, F.Opened(hub.store, who)) }

  /** A step of the hub or of a handler, or one of the dashboard's channel. */
  datatype Move = HubMoves(a: H.Action) | LineMoves(b: F.Move)

  /** The store operation in a step of the hub, if there is one. */
  function OpOf(s: H.State, a: H.Action): Option<Op>
    requires H.Enabled(s, a)
  {
    match a
    case AgentOnline(c, meta, now) => Some(SetOnline(s.conns[c].device, meta, now))
    case AgentOffline(c, now) => Some(SetOffline(s.conns[c].device, now))
    case ViewerClaims(v, now) => Some(Register(v, s.people[v].device, s.people[v].admin, "view", now))
    case EndReleases(v, now) => Some(End(v, now))
    case Housekeeping(op) => Some(op)
    case _ => None
  }

  predicate Able(y: System, m: Move) {
    match m
    case HubMoves(a) => !y.line.broken && H.Enabled(y.hub, a)
    case LineMoves(b) => !b.Perform? && F.Can(y.line, b)
  }

  function Next(y: System, m: Move): System
    requires Able(y, m)
  {
    match m
    case HubMoves(a) =>
      System(H.Step(y.hub, a),
             match OpOf(y.hub, a) case Some(op) => F.Next(y.line, F.Perform(op)) case None => y.line)
    case LineMoves(b) => y.(line := F.Next(y.line, b))
  }

  predicate Runs(y: System, moves: seq<Move>)
    decreases |moves|
  {
    moves == [] || (Able(y, moves[0]) && Runs(Next(y, moves[0]), moves[1..]))
  }

  function After(y: System, moves: seq<Move>): System
    requires Runs(y, moves)
    decreases |moves|
  {
    if moves == [] then y else After(Next(y, moves[0]), moves[1..])
  }

  /** The hub changes the store by that operation and in no other way, and every session id it registers is
      fresh. */
  lemma HubStepIsItsOp(s: H.State, a: H.Action)
    requires H.Inv(s) && H.Enabled(s, a)
    ensures OpOf(s, a).None? ==> H.Step(s, a).store == s.store
    ensures OpOf(s, a).Some? ==> H.Step(s, a).store == Apply(s.store, OpOf(s, a).value)
    ensures OpOf(s, a).Some? ==> FreshId(s.store, OpOf(s, a).value)
  {
  }

  predicate MoveMisleads(y: System, m: Move)
    requires Able(y, m)
  {
    m.HubMoves? && OpOf(y.hub, m.a).Some? && F.Misleads(y.line, OpOf(y.hub, m.a).value)
  }

  predicate NeverMisleads(y: System, moves: seq<Move>)
    requires Runs(y, moves)
    decreases |moves|
  {
    moves == [] || (!MoveMisleads(y, moves[0]) && NeverMisleads(Next(y, moves[0]), moves[1..]))
  }

  /** No event overtakes one of its own device on its way to the channel. */
  predicate InOrder(y: System, moves: seq<Move>)
    requires Runs(y, moves)
    decreases |moves|
  {
    moves == [] ||
    ((moves[0].LineMoves? ==> !F.Overtakes(y.line, moves[0].b)) && InOrder(Next(y, moves[0]), moves[1..]))
  }

  /** What a step of the system is to the line. */
  function ToLine(y: System, m: Move): Option<F.Move>
    requires Able(y, m)
  {
    match m
    case HubMoves(a) => (match OpOf(y.hub, a) case Some(op) => Some(F.Perform(op)) case None => None)
    case LineMoves(b) => Some(b)
  }

  lemma StepIsItsLine(y: System, m: Move)
    requires H.Inv(y.hub) && y.line.store == y.hub.store && Able(y, m)
    ensures H.Inv(Next(y, m).hub) && Next(y, m).line.store == Next(y, m).hub.store
    ensures match ToLine(y, m)
            case None => Next(y, m).line == y.line && !MoveMisleads(y, m)
            case Some(b) =>
              && F.Can(y.line, b) && Next(y, m).line == F.Next(y.line, b)
              && (b.Perform? ==> FreshId(y.line.store, b.op) && (MoveMisleads(y, m) <==> F.Misleads(y.line, b.op)))
  {
    hide H.Inv, H.Step, F.Next, F.Misleads;
    match m
    case HubMoves(a) =>
      H.StepKeepsInv(y.hub, a);
      HubStepIsItsOp(y.hub, a);
      if OpOf(y.hub, a).Some? { LineStore(y.line, F.Perform(OpOf(y.hub, a).value)); }
    case LineMoves(b) => LineStore(y.line, b);
  }

  lemma LineStore(y: F.Line, b: F.Move)
    requires F.Can(y, b)
    ensures F.Next(y, b).store == if b.Perform? then Apply(y.store, b.op) else y.store
  {
  }

  /** One step of the whole system leaves the word that is on its way to the dashboard true exactly when it does not
      mislead it. */
  lemma MoveKeepsTruthIff(y: System, m: Move)
    requires H.Inv(y.hub) && y.line.store == y.hub.store && Able(y, m) && F.Truthful(y.line) && !y.line.left
    ensures F.Truthful(Next(y, m).line) <==> !MoveMisleads(y, m)
  {
    hide H.Step, F.Next, F.Truthful;
    StepIsItsLine(y, m);
    match ToLine(y, m)
    case None =>
    case Some(b) =>
      if b.Perform? {
        StoreIsConsistent(y.hub);
        F.OpKeepsTruthIff(y.line, b.op);
      } else {
        F.DeliveryKeepsTruth(y.line, b);
      }
  }

  lemma StoreIsConsistent(s: H.State)
    requires H.Inv(s)
    ensures Consistent(s.store)
  {
  }

  /** A run of the system is, to the line, a run of the operations the hub makes. */
  lemma {:induction false} RunIsItsLine(y: System, moves: seq<Move>) returns (r: seq<F.Move>)
    requires H.Inv(y.hub) && y.line.store == y.hub.store && Runs(y, moves)
    ensures F.Runs(y.line, r) && F.After(y.line, r) == After(y, moves).line
    ensures NeverMisleads(y, moves) ==> F.Fair(y.line, r)
    ensures InOrder(y, moves) ==> F.InOrder(y.line, r)
    ensures H.Inv(After(y, moves).hub) && After(y, moves).line.store == After(y, moves).hub.store
    decreases |moves|
  {
    hide H.Inv, H.Step, F.Next, Next, F.Misleads;
    if moves == [] {
      r := [];
    } else {
      StepIsItsLine(y, moves[0]);
      r := RunIsItsLine(Next(y, moves[0]), moves[1..]);
      match ToLine(y, moves[0])
      case None =>
      case Some(b) =>
        assert ([b] + r)[1..] == r;
        r := [b] + r;
    }
  }

  /** Whatever the hub has done before a dashboard opens and does after, as long as no step misleads it: once the
      dashboard has caught up, what it shows of a device is true exactly when the last word its channel took about
      it is the last word decided. */
  lemma DashboardFollowsTheHubIff(before: seq<H.Action>, who: F.Watcher, moves: seq<Move>, d: DeviceId)
    requires H.ValidRun(H.START, before)
    requires Runs(Opened(H.Exec(H.START, before), who), moves)
    requires NeverMisleads(Opened(H.Exec(H.START, before), who), moves)
    requires F.CaughtUp(After(Opened(H.Exec(H.START, before), who), moves).line)
    ensures var z := After(Opened(H.Exec(H.START, before), who), moves);
            F.Seen(z.line.view, d) == F.StatusFor(who, z.hub.store, d) <==>
            F.Said(z.line.sent, z.line.offered, d) == F.Said(z.line.sent, z.line.decided, d)
  {
    P.Reachable(before);
    var hub := H.Exec(H.START, before);
    var r := RunIsItsLine(Opened(hub, who), moves);
    F.DashboardIsRightIff(hub.store, who, r, d);
  }

  /** So it ends up showing the truth, if its queue never overflowed and no event overtook one of its own device. */
  lemma DashboardFollowsTheHub(before: seq<H.Action>, who: F.Watcher, moves: seq<Move>)
    requires H.ValidRun(H.START, before)
    requires Runs(Opened(H.Exec(H.START, before), who), moves)
    requires NeverMisleads(Opened(H.Exec(H.START, before), who), moves)
    requires InOrder(Opened(H.Exec(H.START, before), who), moves)
    ensures var z := After(Opened(H.Exec(H.START, before), who), moves);
            F.CaughtUp(z.line) && z.line.air == [] && !z.line.box.missed ==>
              forall d :: F.Seen(z.line.view, d) == F.StatusFor(who, z.hub.store, d)
  {
    P.Reachable(before);
    var hub := H.Exec(H.START, before);
    var r := RunIsItsLine(Opened(hub, who), moves);
    F.SubscribeThenSnapshotConverges(hub.store, who, r);
  }

  lemma {:induction false} Continue(y: System, moves: seq<Move>, m: Move) returns (r: seq<Move>)
    requires Runs(y, moves) && Able(After(y, moves), m)
    ensures r == moves + [m] && Runs(y, r) && After(y, r) == Next(After(y, moves), m)
    decreases |moves|
  {
    r := moves + [m];
    if moves != [] {
      var rest := Continue(Next(y, moves[0]), moves[1..], m);
      assert r[1..] == rest;
    } else {
      assert r[1..] == [];
    }
  }

  lemma Begin(y: System)
    ensures Runs(y, []) && After(y, []) == y
  {
  }

  /** An operator finds the agent of an absent device and claims the device. */
  lemma ClaimOfAbsentDevice(y: System, d: DeviceId, v: SessionId, admin: string) returns (moves: seq<Move>)
    requires !y.line.broken && !y.line.left && d in y.hub.agents && v !in y.hub.people
    requires d !in y.hub.store.devices && d !in y.hub.store.deviceSess && y.line.store == y.hub.store
    ensures Runs(y, moves)
    ensures var z, op := After(y, moves), Register(v, d, admin, "view", 0);
            z.hub.agents == y.hub.agents && z.hub.store == Apply(y.hub.store, op) && z.line == F.Next(y.line, F.Perform(op))
  {
    hide Runs, After, F.Next;
    Begin(y);
    moves := Continue(y, [], HubMoves(H.ViewerOpens(v, d, admin)));
    moves := Continue(y, moves, HubMoves(H.ViewerClaims(v, 0)));
  }

  lemma {:induction false} Join(y: System, first: seq<Move>, second: seq<Move>)
    requires Runs(y, first) && Runs(After(y, first), second)
    ensures Runs(y, first + second) && After(y, first + second) == After(After(y, first), second)
    decreases |first|
  {
    if first == [] {
      assert first + second == second;
    } else {
      assert (first + second)[1..] == first[1..] + second;
      Join(Next(y, first[0]), first[1..], second);
    }
  }

  /** The hub itself can mislead: delete a device whose agent is connected, and an operator still finds the agent
      and claims the device that is not there. A super admin's drained dashboard shows it in session. */
  lemma AbsentDeviceIsClaimed(who: F.Watcher, d: DeviceId, v: SessionId, admin: string, meta: DeviceMeta)
    returns (before: seq<H.Action>, moves: seq<Move>)
    requires who.superAdmin
    ensures H.ValidRun(H.START, before) && Runs(Opened(H.Exec(H.START, before), who), moves)
    ensures var z := After(Opened(H.Exec(H.START, before), who), moves);
            && F.CaughtUp(z.line) && z.line.air == [] && !z.line.box.missed
            && d in z.hub.agents && d !in z.hub.store.devices && F.Seen(z.line.view, d) == InSession
  {
    before := P.DeletionUnderAgentHappens(d, meta);
    hide Runs, After, H.Inv, H.Step;
    var y := Opened(H.Exec(H.START, before), who);
    Begin(y);
    moves := Continue(y, [], LineMoves(F.SendSnapshot));
    var claim := ClaimOfAbsentDevice(After(y, moves), d, v, admin);
    Join(y, moves, claim);
    moves := Continue(y, moves + claim, LineMoves(F.Publish(0)));
    moves := Continue(y, moves, LineMoves(F.Take));
  }
}
