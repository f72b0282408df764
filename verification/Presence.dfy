/** The in-memory presence store of the backend: which devices are connected, which are claimed by a
    monitoring session, and the events published about it.

    `Apply` and `Emits` say what each operation does to the state and what it announces; `MemoryStore`
    is the object that does it in place, with its subscribers' bounded channels. */
module Presence {
  import opened Basics

  type DeviceId = string
  type SessionId = string
  type Instant = nat

  datatype Status = Online | Offline | InSession

  datatype DeviceMeta = DeviceMeta(org: string, kind: string, ip: string, owner: Option<string>, group: Option<string>)

  /** `active` is the session the record names, "" for none. */
  datatype DevicePresence = DevicePresence(meta: DeviceMeta, status: Status, active: SessionId, lastSeen: Instant)

  datatype ActiveSession =
    ActiveSession(id: SessionId, device: DeviceId, admin: string, mode: string, startedAt: Instant)

  datatype EventKind = DeviceOnline | DeviceOffline | SessionStart | SessionEnd

  datatype PresenceEvent = PresenceEvent(
    kind: EventKind, device: DeviceId, status: Status, session: SessionId,
    org: string, owner: Option<string>, group: Option<string>, at: Instant)

  datatype Store = Store(
    devices: map<DeviceId, DevicePresence>, sessions: map<SessionId, ActiveSession>,
    deviceSess: map<DeviceId, SessionId>)

  /** `now` is what the clock says during the operation. */
  datatype Op =
    | SetOnline(device: DeviceId, meta: DeviceMeta, now: Instant)
    | Touch(device: DeviceId, ip: string, now: Instant)
    | Reassign(device: DeviceId, admin: Option<string>, team: Option<string>)
    | SetOffline(device: DeviceId, now: Instant)
    | Register(id: SessionId, device: DeviceId, viewer: string, mode: string, now: Instant)
    | End(id: SessionId, now: Instant)

  const EMPTY := Store(map[], map[], map[])

  // ----- What the operations do -----

  function Forget<K, V>(m: map<K, V>, k: K): map<K, V> { m - {k} }

  function Apply(s: Store, op: Op): Store {
    match op
    case SetOnline(d, meta, now) =>
      var status := if d in s.deviceSess then InSession else Online;
      var active := if d in s.devices then s.devices[d].active else "";
      s.(devices := s.devices[d := DevicePresence(meta, status, active, now)])
    case Touch(d, ip, now) =>
      if d in s.devices then
        var meta := if ip != "" then s.devices[d].meta.(ip := ip) else s.devices[d].meta;
        s.(devices := s.devices[d := s.devices[d].(meta := meta, lastSeen := now)])
      else
        s
    case Reassign(d, admin, team) =>
      if d in s.devices then
        s.(devices := s.devices[d := s.devices[d].(meta := s.devices[d].meta.(owner := admin, group := team))])
      else
        s
    case SetOffline(d, _) =>
      if d !in s.devices then s
      else if d in s.deviceSess then
        Store(Forget(s.devices, d), Forget(s.sessions, s.deviceSess[d]), Forget(s.deviceSess, d))
      else
        s.(devices := Forget(s.devices, d))
    case Register(id, d, viewer, mode, now) =>
      if d in s.deviceSess then s
      else
        Store(if d in s.devices then s.devices[d := s.devices[d].(status := InSession, active := id)] else s.devices,
              s.sessions[id := ActiveSession(id, d, viewer, mode, now)], s.deviceSess[d := id])
    case End(id, _) =>
      if id !in s.sessions then s
      else
        var d := s.sessions[id].device;
        Store(if d in s.devices then s.devices[d := s.devices[d].(status := Online, active := "")] else s.devices,
              Forget(s.sessions, id), Forget(s.deviceSess, d))
  }

  /** An event about `d`, with the routing fields of its record if it has one. */
  function Announce(s: Store, kind: EventKind, d: DeviceId, status: Status, id: SessionId, now: Instant): PresenceEvent {
    if d in s.devices then
      PresenceEvent(kind, d, status, id, s.devices[d].meta.org, s.devices[d].meta.owner, s.devices[d].meta.group, now)
    else
      PresenceEvent(kind, d, status, id, "", None, None, now)
  }

  function Emits(s: Store, op: Op): Option<PresenceEvent> {
    match op
    case SetOnline(d, _, now) => Some(Announce(Apply(s, op), DeviceOnline, d, Apply(s, op).devices[d].status, "", now))
    case Touch(_, _, _) => None
    case Reassign(_, _, _) => None
    case SetOffline(d, now) => if d in s.devices then Some(Announce(s, DeviceOffline, d, Offline, "", now)) else None
    case Register(id, d, _, _, now) =>
      if d in s.deviceSess then None else Some(Announce(s, SessionStart, d, InSession, id, now))
    case End(id, now) =>
      if id in s.sessions then Some(Announce(s, SessionEnd, s.sessions[id].device, Online, id, now)) else None
  }

  // ----- Invariant -----

  /** `sessions` and `deviceSess` are each other's inverse: one session per device, one device per session. */
  predicate MutuallyInverse(s: Store) {
    && (forall d :: d in s.deviceSess ==> s.deviceSess[d] in s.sessions && s.sessions[s.deviceSess[d]].device == d)
    && (forall id :: id in s.sessions ==>
          s.sessions[id].id == id && s.sessions[id].device in s.deviceSess && s.deviceSess[s.sessions[id].device] == id)
  }

  /** A present device is in session exactly when it is claimed, and names no session but its claim. */
  predicate StatusMatchesClaim(s: Store) {
    forall d :: d in s.devices ==>
      && s.devices[d].status == (if d in s.deviceSess then InSession else Online)
      && (s.devices[d].active != "" ==> d in s.deviceSess && s.deviceSess[d] == s.devices[d].active)
  }

  predicate Consistent(s: Store) { MutuallyInverse(s) && StatusMatchesClaim(s) }

  /** A registration under an id that no live session has. */
  predicate FreshId(s: Store, op: Op) { op.Register? ==> op.id !in s.sessions }

  lemma StepKeepsInverse(s: Store, op: Op)
    requires Consistent(s) && FreshId(s, op)
    ensures MutuallyInverse(Apply(s, op))
  {
  }

  lemma StepKeepsStatus(s: Store, op: Op)
    requires Consistent(s) && FreshId(s, op)
    ensures StatusMatchesClaim(Apply(s, op))
  {
  }

  /** Registering keeps the store consistent exactly when the session id is not in use (or the claim is refused). */
  lemma RegisterNeedsFreshId(s: Store, op: Op)
    requires Consistent(s) && op.Register?
    ensures Consistent(Apply(s, op)) <==> op.id !in s.sessions || op.device in s.deviceSess
  {
    if op.id !in s.sessions {
      StepKeepsInverse(s, op);
      StepKeepsStatus(s, op);
    } else if op.device !in s.deviceSess {
      var victim := s.sessions[op.id].device;
      assert Apply(s, op).deviceSess[victim] == op.id && Apply(s, op).sessions[op.id].device != victim;
    }
  }

  function Run(s: Store, ops: seq<Op>): Store
    decreases |ops|
  {
    if ops == [] then s else Run(Apply(s, ops[0]), ops[1..])
  }

  predicate FreshRun(s: Store, ops: seq<Op>)
    decreases |ops|
  {
    ops == [] || (FreshId(s, ops[0]) && FreshRun(Apply(s, ops[0]), ops[1..]))
  }

  /** Every store reachable with fresh session ids is consistent. */
  lemma {:induction false} RunKeepsConsistent(s: Store, ops: seq<Op>)
    requires Consistent(s) && FreshRun(s, ops)
    ensures Consistent(Run(s, ops))
    decreases |ops|
  {
    if ops != [] {
      StepKeepsInverse(s, ops[0]);
      StepKeepsStatus(s, ops[0]);
      RunKeepsConsistent(Apply(s, ops[0]), ops[1..]);
    }
  }

  lemma ReachableIsConsistent(ops: seq<Op>)
    requires FreshRun(EMPTY, ops)
    ensures var s := Run(EMPTY, ops);
            && (forall d1, d2 :: d1 in s.deviceSess && d2 in s.deviceSess && s.deviceSess[d1] == s.deviceSess[d2] ==> d1 == d2)
            && (forall d :: d in s.devices ==> (s.devices[d].status == InSession <==> d in s.deviceSess))
            && Consistent(s)
  {
    RunKeepsConsistent(EMPTY, ops);
  }

  /** The claim rule at one call: a device that is claimed refuses another session and nothing changes; a device
      that is not is claimed afterwards, by this session; no other device's claim moves. */
  lemma OneViewerPerDevice(s: Store, op: Op)
    requires Consistent(s) && op.Register? && FreshId(s, op)
    ensures var s' := Apply(s, op);
            && (op.device in s.deviceSess ==> s' == s && Emits(s, op) == None)
            && (op.device !in s.deviceSess ==> op.device in s'.deviceSess && s'.deviceSess[op.device] == op.id)
            && (forall d :: d != op.device ==> (d in s'.deviceSess <==> d in s.deviceSess) &&
                                               (d in s.deviceSess ==> s'.deviceSess[d] == s.deviceSess[d]))
  {
  }

  predicate Claims(s: Store, d: DeviceId, id: SessionId) { d in s.deviceSess && s.deviceSess[d] == id }

  /** Neither the session is ended nor the device taken offline. */
  predicate Undisturbed(ops: seq<Op>, d: DeviceId, id: SessionId) {
    forall i :: 0 <= i < |ops| ==>
      !(ops[i].End? && ops[i].id == id) && !(ops[i].SetOffline? && ops[i].device == d)
  }

  /** The registrations of `d` in a run that were let in. */
  function Admitted(s: Store, ops: seq<Op>, d: DeviceId): nat
    decreases |ops|
  {
    if ops == [] then 0
    else (if ops[0].Register? && ops[0].device == d && d !in s.deviceSess then 1 else 0) +
         Admitted(Apply(s, ops[0]), ops[1..], d)
  }

  /** Over a whole run a claim belongs to its session until that session ends or the device goes offline, and
      meanwhile every other registration on the device is refused. */
  lemma {:induction false} ClaimIsExclusive(s: Store, ops: seq<Op>, d: DeviceId, id: SessionId)
    requires Consistent(s) && FreshRun(s, ops) && Claims(s, d, id) && Undisturbed(ops, d, id)
    ensures Claims(Run(s, ops), d, id) && Admitted(s, ops, d) == 0
    decreases |ops|
  {
    if ops != [] {
      StepKeepsInverse(s, ops[0]);
      StepKeepsStatus(s, ops[0]);
      assert forall i :: 0 <= i < |ops[1..]| ==> ops[1..][i] == ops[i + 1];
      ClaimIsExclusive(Apply(s, ops[0]), ops[1..], d, id);
    }
  }

  /** Ending an ended session does nothing, so a late `EndSession` cannot release a newer claim. */
  lemma EndIsIdempotent(s: Store, id: SessionId, now: Instant, between: seq<Op>, later: Instant)
    requires forall i :: 0 <= i < |between| ==> !(between[i].Register? && between[i].id == id)
    ensures var s' := Run(Apply(s, End(id, now)), between);
            Apply(s', End(id, later)) == s' && Emits(s', End(id, later)) == None
  {
    StaysEnded(Apply(s, End(id, now)), id, between);
  }

  lemma {:induction false} StaysEnded(s: Store, id: SessionId, ops: seq<Op>)
    requires id !in s.sessions
    requires forall i :: 0 <= i < |ops| ==> !(ops[i].Register? && ops[i].id == id)
    ensures id !in Run(s, ops).sessions
    decreases |ops|
  {
    if ops != [] {
      assert id !in Apply(s, ops[0]).sessions;
      StaysEnded(Apply(s, ops[0]), id, ops[1..]);
    }
  }
}
