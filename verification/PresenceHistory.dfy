/** What the presence store holds, told from the operations of a run alone: each column of a record, who holds a device
    under which name, and what each event says of the change it announces. */
module PresenceHistory {
  import opened Basics
  import opened Presence

  // ----- The records -----

  /** The latest operation on `d` of those that make or remove its record made it. */
  predicate CameLast(ops: seq<Op>, d: DeviceId)
    decreases |ops|
  {
    ops != [] &&
    match ops[|ops| - 1]
    case SetOnline(e, _, _) => e == d || CameLast(ops[..|ops| - 1], d)
    case SetOffline(e, _) => e != d && CameLast(ops[..|ops| - 1], d)
    case _ => CameLast(ops[..|ops| - 1], d)
  }

  /** What the device said of itself when it last came online. */
  function LastHello(ops: seq<Op>, d: DeviceId): Option<DeviceMeta>
    decreases |ops|
  {
    if ops == [] then None
    else if ops[|ops| - 1].SetOnline? && ops[|ops| - 1].device == d then Some(ops[|ops| - 1].meta)
    else LastHello(ops[..|ops| - 1], d)
  }

  /** The latest address known: of the last heartbeat that has one, or of coming online. */
  function LastAddress(ops: seq<Op>, d: DeviceId): string
    decreases |ops|
  {
    if ops == [] then ""
    else
      match ops[|ops| - 1]
      case SetOnline(e, meta, _) => if e == d then meta.ip else LastAddress(ops[..|ops| - 1], d)
      case Touch(e, ip, _) => if e == d && ip != "" then ip else LastAddress(ops[..|ops| - 1], d)
      case _ => LastAddress(ops[..|ops| - 1], d)
  }

  /** The latest assignment: by an administrator, or as the device came online. */
  function LastAssignment(ops: seq<Op>, d: DeviceId): (Option<string>, Option<string>)
    decreases |ops|
  {
    if ops == [] then (None, None)
    else
      match ops[|ops| - 1]
      case SetOnline(e, meta, _) => if e == d then (meta.owner, meta.group) else LastAssignment(ops[..|ops| - 1], d)
      case Reassign(e, admin, team) => if e == d then (admin, team) else LastAssignment(ops[..|ops| - 1], d)
      case _ => LastAssignment(ops[..|ops| - 1], d)
  }

  /** When the device was last heard of. */
  function LastHeard(ops: seq<Op>, d: DeviceId): Instant
    decreases |ops|
  {
    if ops == [] then 0
    else
      match ops[|ops| - 1]
      case SetOnline(e, _, now) => if e == d then now else LastHeard(ops[..|ops| - 1], d)
      case Touch(e, _, now) => if e == d then now else LastHeard(ops[..|ops| - 1], d)
      case _ => LastHeard(ops[..|ops| - 1], d)
  }

  lemma {:induction false} RunSnoc(s: Store, ops: seq<Op>)
    requires ops != []
    ensures Run(s, ops) == Apply(Run(s, ops[..|ops| - 1]), ops[|ops| - 1])
    decreases |ops|
  {
    if |ops| > 1 {
      assert ops[1..][..|ops[1..]| - 1] == ops[..|ops| - 1][1..];
      RunSnoc(Apply(s, ops[0]), ops[1..]);
    } else {
      assert ops[1..] == [] && ops[..0] == [];
    }
  }

  /** `d` has a record in `s` exactly when it came online last, and each column of it is what was said of it last. */
  predicate IsAsSaid(s: Store, ops: seq<Op>, d: DeviceId) {
    && (d in s.devices <==> CameLast(ops, d))
    && (d in s.devices ==>
          var meta, hello := s.devices[d].meta, LastHello(ops, d);
          && hello.Some? && meta.org == hello.value.org && meta.kind == hello.value.kind
          && meta.ip == LastAddress(ops, d)
          && meta.owner == LastAssignment(ops, d).0 && meta.group == LastAssignment(ops, d).1
          && s.devices[d].lastSeen == LastHeard(ops, d))
  }

  lemma MetaIsAsSaid(s: Store, ops: seq<Op>, d: DeviceId)
    requires ops != [] && IsAsSaid(s, ops[..|ops| - 1], d)
    requires var op := ops[|ops| - 1]; op.SetOnline? || op.Touch? || op.Reassign?
    ensures IsAsSaid(Apply(s, ops[|ops| - 1]), ops, d)
  {
  }

  lemma SessionIsAsSaid(s: Store, ops: seq<Op>, d: DeviceId)
    requires ops != [] && IsAsSaid(s, ops[..|ops| - 1], d)
    requires var op := ops[|ops| - 1]; op.SetOffline? || op.Register? || op.End?
    ensures IsAsSaid(Apply(s, ops[|ops| - 1]), ops, d)
  {
  }

  /** Whatever the operations, fresh ids or not. */
  lemma {:induction false} RecordsFollowTheOperations(ops: seq<Op>, d: DeviceId)
    ensures IsAsSaid(Run(EMPTY, ops), ops, d)
    decreases |ops|
  {
    if ops != [] {
      hide IsAsSaid, Apply;
      var before, op := ops[..|ops| - 1], ops[|ops| - 1];
      RunSnoc(EMPTY, ops);
      RecordsFollowTheOperations(before, d);
      if op.SetOnline? || op.Touch? || op.Reassign? {
        MetaIsAsSaid(Run(EMPTY, before), ops, d);
      } else {
        SessionIsAsSaid(Run(EMPTY, before), ops, d);
      }
    }
  }

  // ----- The claims -----

  /** A present device that is claimed names the claim, or one that was absent then names none. */
  predicate IsNamed(s: Store, d: DeviceId, id: SessionId, present: bool) {
    && Claims(s, d, id) && id in s.sessions
    && (present ==> d in s.devices)
    && (d in s.devices ==> s.devices[d].status.InSession? && s.devices[d].active == if present then id else "")
  }

  lemma StepKeepsName(s: Store, op: Op, d: DeviceId, id: SessionId, present: bool)
    requires Consistent(s) && FreshId(s, op) && IsNamed(s, d, id, present) && Undisturbed([op], d, id)
    ensures IsNamed(Apply(s, op), d, id, present) && Apply(s, op).sessions[id] == s.sessions[id]
  {
    assert [op][0] == op;
  }

  lemma {:induction false} RunKeepsName(s: Store, ops: seq<Op>, d: DeviceId, id: SessionId, present: bool)
    requires Consistent(s) && FreshRun(s, ops) && IsNamed(s, d, id, present) && Undisturbed(ops, d, id)
    ensures IsNamed(Run(s, ops), d, id, present) && Run(s, ops).sessions[id] == s.sessions[id]
    decreases |ops|
  {
    if ops != [] {
      assert Undisturbed([ops[0]], d, id);
      assert forall i :: 0 <= i < |ops[1..]| ==> ops[1..][i] == ops[i + 1];
      StepKeepsInverse(s, ops[0]);
      StepKeepsStatus(s, ops[0]);
      StepKeepsName(s, ops[0], d, id, present);
      RunKeepsName(Apply(s, ops[0]), ops[1..], d, id, present);
    }
  }

  /** An admitted session holds its device, under its name and as it was registered, until it ends or the device goes
      offline, whatever reconnections, heartbeats, reassignments and other sessions come between; and the device is in
      session all the while. Its record names the session exactly when the device was present when it was claimed: one
      that comes online only afterwards is in session and names none. */
  lemma ClaimIsNamed(s: Store, op: Op, ops: seq<Op>)
    requires Consistent(s) && op.Register? && FreshId(s, op) && op.device !in s.deviceSess && op.id != ""
    requires FreshRun(Apply(s, op), ops) && Undisturbed(ops, op.device, op.id)
    ensures var t := Run(Apply(s, op), ops);
            && op.device in t.deviceSess && t.deviceSess[op.device] == op.id && op.id in t.sessions
            && t.sessions[op.id] == ActiveSession(op.id, op.device, op.viewer, op.mode, op.now)
            && (op.device in s.devices ==> op.device in t.devices)
            && (op.device in t.devices ==>
                  && t.devices[op.device].status == InSession
                  && (t.devices[op.device].active == op.id <==> op.device in s.devices)
                  && (t.devices[op.device].active == "" <==> op.device !in s.devices))
  {
    StepKeepsInverse(s, op);
    StepKeepsStatus(s, op);
    RunKeepsName(Apply(s, op), ops, op.device, op.id, op.device in s.devices);
  }

  /** A step takes a claim away exactly by ending the session that holds it, or by taking the device offline while it
      is present; and then the session is out of the registry too. */
  lemma ClaimGoesIff(s: Store, op: Op, d: DeviceId, id: SessionId)
    requires Consistent(s) && FreshId(s, op) && Claims(s, d, id)
    ensures !Claims(Apply(s, op), d, id) <==>
            (op.End? && op.id == id) || (op.SetOffline? && op.device == d && d in s.devices)
    ensures !Claims(Apply(s, op), d, id) ==> d !in Apply(s, op).deviceSess && id !in Apply(s, op).sessions
  {
  }

  /** The second can happen: a device that comes online in session and names none. */
  lemma UnnamedClaimHappens(id: SessionId, d: DeviceId, viewer: string, meta: DeviceMeta) returns (ops: seq<Op>)
    requires id != ""
    ensures FreshRun(EMPTY, ops)
    ensures var s := Run(EMPTY, ops);
            && d in s.deviceSess && s.deviceSess[d] == id
            && d in s.devices && s.devices[d].status == InSession && s.devices[d].active == ""
  {
    var first, second := Register(id, d, viewer, "view", 0), SetOnline(d, meta, 0);
    ops := [first, second];
    assert ops[1..] == [second] && [second][1..] == [];
    assert Run(Apply(EMPTY, first), [second]) == Run(Apply(Apply(EMPTY, first), second), []);
  }

  // ----- The events -----

  /** A device's claim, if it has one. */
  function Holder(s: Store, d: DeviceId): Option<SessionId> {
    if d in s.deviceSess then Some(s.deviceSess[d]) else None
  }

  /** An event is made exactly by coming online and by what changes the store other than a heartbeat or a
      reassignment. */
  lemma EventIffChange(s: Store, op: Op)
    requires Consistent(s) && FreshId(s, op)
    ensures Emits(s, op).Some? <==> op.SetOnline? || (!op.Touch? && !op.Reassign? && Apply(s, op) != s)
  {
    if op.Register? && op.device !in s.deviceSess { assert op.id in Apply(s, op).sessions; }
    if op.End? && op.id in s.sessions { assert op.id !in Apply(s, op).sessions; }
    if op.SetOffline? && op.device in s.devices { assert op.device !in Apply(s, op).devices; }
  }

  /** What an event says is what changed: a device that is gone, a claim that appeared or went and whose it is, or else
      a device that came online; with the time of the operation and, while the device has a record, its routing. */
  lemma EventSaysWhatChanged(s: Store, op: Op, e: PresenceEvent)
    requires Consistent(s) && FreshId(s, op) && Emits(s, op) == Some(e)
    ensures var t, d := Apply(s, op), e.device;
            && (e.kind.DeviceOffline? <==> d in s.devices && d !in t.devices)
            && (e.kind.SessionStart? <==> d !in s.deviceSess && d in t.deviceSess)
            && (e.kind.SessionEnd? <==> d in s.deviceSess && d !in t.deviceSess && !e.kind.DeviceOffline?)
            && e.session == (if e.kind.SessionStart? then t.deviceSess[d]
                             else if e.kind.SessionEnd? then s.deviceSess[d] else "")
            && e.at == op.now
    ensures var t, d := Apply(s, op), e.device;
            var meta := if d in t.devices then Some(t.devices[d].meta) else if d in s.devices then Some(s.devices[d].meta) else None;
            match meta
            case Some(m) => e.org == m.org && e.owner == m.owner && e.group == m.group
            case None => e.org == "" && e.owner == None && e.group == None
  {
  }
}
