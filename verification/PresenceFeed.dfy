/** What a dashboard sees: it subscribes, is sent a snapshot of the devices present, and then reads published
    events from a queue of sixteen that drops what does not fit. Snapshot and events are filtered by what the
    watcher may see, by the assignment that record or event carries.

    A store operation decides its event under the lock and publishes it after the unlock. In between the event is
    in the air, and events in the air may be published in any order. */
module PresenceFeed {
  import opened Basics
  import opened Presence

  const QUEUE_SIZE := 16

  /** The watcher's claims, and the teams read once when the socket opened. */
  datatype Watcher = Watcher(superAdmin: bool, org: string, user: string, teams: set<string>)

  /** `visibleToAdmin`. */
  predicate Visible(who: Watcher, org: string, owner: Option<string>, group: Option<string>) {
    if who.superAdmin then org == "" || org == who.org
    else owner == Some(who.user) || (group.Some? && group.value in who.teams)
  }

  predicate SeesMeta(who: Watcher, meta: DeviceMeta) { Visible(who, meta.org, meta.owner, meta.group) }

  predicate SeesEvent(who: Watcher, e: PresenceEvent) { Visible(who, e.org, e.owner, e.group) }

  /** A subscriber's channel; `missed` is whether an event ever found it full. */
  datatype Mailbox = Mailbox(queue: seq<PresenceEvent>, missed: bool)

  /** A non-blocking send. */
  function Offer(box: Mailbox, e: PresenceEvent): Mailbox {
    if |box.queue| < QUEUE_SIZE then box.(queue := box.queue + [e]) else box.(missed := true)
  }

  /** The status of a device as far as the watcher may know: one that it may not see, or that has no record,
      is offline to it. */
  function StatusFor(who: Watcher, s: Store, d: DeviceId): Status {
    if d in s.devices && SeesMeta(who, s.devices[d].meta) then s.devices[d].status else Offline
  }

  function Seen(view: map<DeviceId, Status>, d: DeviceId): Status {
    if d in view then view[d] else Offline
  }

  function Snapshot(who: Watcher, s: Store): map<DeviceId, Status> {
    map d | d in s.devices && SeesMeta(who, s.devices[d].meta) :: s.devices[d].status
  }

  function Deliver(who: Watcher, view: map<DeviceId, Status>, e: PresenceEvent): map<DeviceId, Status> {
    if SeesEvent(who, e) then view[e.device := e.status] else view
  }

  /** The view once the whole queue has been read. */
  function Drained(who: Watcher, view: map<DeviceId, Status>, queue: seq<PresenceEvent>): map<DeviceId, Status>
    decreases |queue|
  {
    if queue == [] then view else Drained(who, Deliver(who, view, queue[0]), queue[1..])
  }

  // ----- The line between the store and one dashboard -----

  /** `air` are the events for this dashboard's channel that are not published yet, oldest first; `view` is what the
      dashboard has been told; with `left` its channel is closed, and `broken` is the panic of a send on it.
      The rest is history: the snapshot that was sent, and for each device the status in the last visible event
      that an operation decided, and in the last one that the channel took. */
  datatype Line = Line(
    store: Store, who: Watcher, air: seq<PresenceEvent>, box: Mailbox, view: map<DeviceId, Status>, seeded: bool,
    left: bool, broken: bool,
    sent: map<DeviceId, Status>, decided: map<DeviceId, Status>, offered: map<DeviceId, Status>)

  /** Events decided before the subscription are not for this channel. */
  function Opened(s: Store, who: Watcher): Line {
    Line(s, who, [], Mailbox([], false), map[], false, false, false, map[], map[], map[])
  }

  datatype Move = Perform(op: Op) | Publish(i: nat) | SendSnapshot | Take | Leave

  /** The dashboard loop reads only after the snapshot has been sent, which happens once. */
  predicate Can(y: Line, m: Move) {
    && !y.broken
    && match m
       case Perform(_) => true
       case Publish(i) => i < |y.air|
       case SendSnapshot => !y.left && !y.seeded
       case Take => !y.left && y.seeded && y.box.queue != []
       case Leave => !y.left
  }

  function Without<T>(q: seq<T>, i: nat): seq<T>
    requires i < |q|
  {
    q[..i] + q[i + 1..]
  }

  function Next(y: Line, m: Move): Line
    requires Can(y, m)
  {
    match m
    case Perform(op) =>
      var done := y.(store := Apply(y.store, op));
      if y.left || Emits(y.store, op).None? then done
      else
        var e := Emits(y.store, op).value;
        done.(air := y.air + [e], decided := Deliver(y.who, y.decided, e))
    case Publish(i) =>
      var flown := y.(air := Without(y.air, i));
      if y.left then flown.(broken := true)
      else if |y.box.queue| < QUEUE_SIZE then
        flown.(box := Offer(y.box, y.air[i]), offered := Deliver(y.who, y.offered, y.air[i]))
      else flown.(box := Offer(y.box, y.air[i]))
    case SendSnapshot =>
      y.(view := Snapshot(y.who, y.store), seeded := true, sent := Snapshot(y.who, y.store))
    case Take =>
      y.(view := Deliver(y.who, y.view, y.box.queue[0]), box := y.box.(queue := y.box.queue[1..]))
    case Leave => y.(left := true)
  }

  predicate Runs(y: Line, moves: seq<Move>)
    decreases |moves|
  {
    moves == [] || (Can(y, moves[0]) && Runs(Next(y, moves[0]), moves[1..]))
  }

  function After(y: Line, moves: seq<Move>): Line
    requires Runs(y, moves)
    decreases |moves|
  {
    if moves == [] then y else After(Next(y, moves[0]), moves[1..])
  }

  // ----- The operations a feed cannot follow -----

  /** The device an operation is about. */
  function Target(s: Store, op: Op): DeviceId {
    if op.End? then (if op.id in s.sessions then s.sessions[op.id].device else "") else op.device
  }

  /** A session is registered on, or ended for, a device that has no record. */
  predicate Phantom(s: Store, op: Op) {
    || (op.Register? && op.device !in s.deviceSess && op.device !in s.devices)
    || (op.End? && op.id in s.sessions && s.sessions[op.id].device !in s.devices)
  }

  /** A present device changes hands so that the watcher is not told: a reassignment is not announced at all,
      and a reconnection is announced only to those who may see the device now. */
  predicate SightChanges(who: Watcher, s: Store, op: Op) {
    && (op.Reassign? || op.SetOnline?) && op.device in s.devices
    && var before := SeesMeta(who, s.devices[op.device].meta);
    var after := SeesMeta(who, Apply(s, op).devices[op.device].meta);
    if op.Reassign? then before != after else before && !after
  }

  predicate Mentions(who: Watcher, e: PresenceEvent, d: DeviceId) { e.device == d && SeesEvent(who, e) }

  // ----- What is true, and what is believed -----

  /** The last word about `d`: the last event, or else the snapshot. */
  function Said(snapshot: map<DeviceId, Status>, events: map<DeviceId, Status>, d: DeviceId): Status {
    if d in events then events[d] else Seen(snapshot, d)
  }

  /** The snapshot that was sent, or else the one to come. */
  function Base(y: Line): map<DeviceId, Status> {
    if y.seeded then y.sent else Snapshot(y.who, y.store)
  }

  /** What the queue is read on top of. */
  function Start(y: Line): map<DeviceId, Status> {
    if y.seeded then y.view else Snapshot(y.who, y.store)
  }

  /** What the dashboard will believe about `d` once it has drained its queue. */
  function Belief(y: Line, d: DeviceId): Status { Seen(Drained(y.who, Start(y), y.box.queue), d) }

  /** What the operations have decided to say is what the store says. */
  ghost predicate Truthful(y: Line) {
    forall d :: Said(Base(y), y.decided, d) == StatusFor(y.who, y.store, d)
  }

  ghost predicate BelievesOffered(y: Line) {
    forall d :: Belief(y, d) == Said(Base(y), y.offered, d)
  }

  predicate InQueue(y: Line, d: DeviceId) {
    exists i :: 0 <= i < |y.box.queue| && Mentions(y.who, y.box.queue[i], d)
  }

  /** Nothing is read before the snapshot. */
  ghost predicate QueueIsWhole(y: Line) {
    !y.seeded ==> forall d :: InQueue(y, d) <==> d in y.offered
  }

  /** The event of a session on an absent device carries no organisation, and only a super admin sees such an
      event. A change of sight misleads once the dashboard's word on the device no longer depends on the snapshot:
      it has been sent, or an event about the device comes after it. */
  predicate Misleads(y: Line, op: Op) {
    || (y.who.superAdmin && Phantom(y.store, op))
    || (SightChanges(y.who, y.store, op) && (y.seeded || op.device in y.decided))
  }

  lemma {:induction false} DrainedSnoc(
      who: Watcher, view: map<DeviceId, Status>, queue: seq<PresenceEvent>, e: PresenceEvent)
    ensures Drained(who, view, queue + [e]) == Deliver(who, Drained(who, view, queue), e)
    decreases |queue|
  {
    if queue == [] {
      assert queue + [e] == [e];
    } else {
      assert (queue + [e])[1..] == queue[1..] + [e];
      DrainedSnoc(who, Deliver(who, view, queue[0]), queue[1..], e);
    }
  }

  /** Draining forgets everything about the start view but the devices no event mentions. */
  lemma {:induction false} DrainedAgrees(
      who: Watcher, v1: map<DeviceId, Status>, v2: map<DeviceId, Status>, queue: seq<PresenceEvent>, d: DeviceId)
    requires Seen(v1, d) == Seen(v2, d)
    ensures Seen(Drained(who, v1, queue), d) == Seen(Drained(who, v2, queue), d)
    decreases |queue|
  {
    if queue != [] {
      DrainedAgrees(who, Deliver(who, v1, queue[0]), Deliver(who, v2, queue[0]), queue[1..], d);
    }
  }

  lemma {:induction false} DrainedUnmentioned(
      who: Watcher, view: map<DeviceId, Status>, queue: seq<PresenceEvent>, d: DeviceId)
    requires forall i :: 0 <= i < |queue| ==> !Mentions(who, queue[i], d)
    ensures Seen(Drained(who, view, queue), d) == Seen(view, d)
    decreases |queue|
  {
    if queue != [] {
      assert !Mentions(who, queue[0], d);
      assert forall i :: 0 <= i < |queue[1..]| ==> queue[1..][i] == queue[i + 1];
      DrainedUnmentioned(who, Deliver(who, view, queue[0]), queue[1..], d);
    }
  }

  lemma {:induction false} DrainedMentioned(
      who: Watcher, v1: map<DeviceId, Status>, v2: map<DeviceId, Status>, queue: seq<PresenceEvent>, d: DeviceId,
      i: nat)
    requires i < |queue| && Mentions(who, queue[i], d)
    ensures Seen(Drained(who, v1, queue), d) == Seen(Drained(who, v2, queue), d)
    decreases |queue|
  {
    var w1, w2 := Deliver(who, v1, queue[0]), Deliver(who, v2, queue[0]);
    if i == 0 {
      DrainedAgrees(who, w1, w2, queue[1..], d);
    } else {
      DrainedMentioned(who, w1, w2, queue[1..], d, i - 1);
    }
  }

  /** What the watcher is told of `d` by an operation: its event if it is about `d` and visible, or else nothing
      new. */
  function Told(who: Watcher, s: Store, op: Op, d: DeviceId): Status {
    var e := Emits(s, op);
    if e.Some? && Mentions(who, e.value, d) then e.value.status else StatusFor(who, s, d)
  }

  predicate TellsTruth(who: Watcher, s: Store, op: Op, d: DeviceId) {
    Told(who, s, op, d) == StatusFor(who, Apply(s, op), d) <==>
    !(((who.superAdmin && Phantom(s, op)) || SightChanges(who, s, op)) && d == Target(s, op))
  }

  lemma MetaEventsTellTheTruth(who: Watcher, s: Store, op: Op, d: DeviceId)
    requires StatusMatchesClaim(s) && (op.SetOnline? || op.Touch? || op.Reassign?)
    ensures TellsTruth(who, s, op, d)
  {
  }

  lemma SessionEventsTellTheTruth(who: Watcher, s: Store, op: Op, d: DeviceId)
    requires Consistent(s) && FreshId(s, op) && (op.SetOffline? || op.Register? || op.End?)
    ensures TellsTruth(who, s, op, d)
  {
  }

  /** For every operation, watcher and device, what is told is true, but for a phantom told to a super admin
      and a change of sight, and then about their own device. */
  lemma EventsTellTheTruth(who: Watcher, s: Store, op: Op, d: DeviceId)
    requires Consistent(s) && FreshId(s, op)
    ensures TellsTruth(who, s, op, d)
  {
    if op.SetOnline? || op.Touch? || op.Reassign? {
      MetaEventsTellTheTruth(who, s, op, d);
    } else {
      SessionEventsTellTheTruth(who, s, op, d);
    }
  }

  /** Phantoms are announced to super admins, sight changes to nobody who loses sight. */
  lemma WhoIsTold(who: Watcher, s: Store, op: Op)
    requires Consistent(s) && FreshId(s, op)
    ensures who.superAdmin && Phantom(s, op) ==> Emits(s, op).Some? && Mentions(who, Emits(s, op).value, Target(s, op))
    ensures SightChanges(who, s, op) && Emits(s, op).Some? ==> !SeesEvent(who, Emits(s, op).value)
  {
  }

  // ----- Operations keep the decided word true -----

  lemma OpTellsTruth(y: Line, op: Op, d: DeviceId)
    requires Consistent(y.store) && FreshId(y.store, op) && Truthful(y) && Can(y, Perform(op)) && !y.left
    ensures var z := Next(y, Perform(op));
            Said(Base(z), z.decided, d) == StatusFor(z.who, z.store, d) <==> !(Misleads(y, op) && d == Target(y.store, op))
  {
    EventsTellTheTruth(y.who, y.store, op, d);
    WhoIsTold(y.who, y.store, op);
    assert Said(Base(y), y.decided, d) == StatusFor(y.who, y.store, d);
  }

  /** An operation leaves the decided word true exactly when it does not mislead this dashboard. */
  lemma OpKeepsTruthIff(y: Line, op: Op)
    requires Consistent(y.store) && FreshId(y.store, op) && Truthful(y) && Can(y, Perform(op)) && !y.left
    ensures Truthful(Next(y, Perform(op))) <==> !Misleads(y, op)
  {
    forall d ensures var z := Next(y, Perform(op));
                     Said(Base(z), z.decided, d) == StatusFor(z.who, z.store, d) <==>
                     !(Misleads(y, op) && d == Target(y.store, op))
    {
      OpTellsTruth(y, op, d);
    }
    assert Misleads(y, op) ==>
        var z := Next(y, Perform(op));
        Said(Base(z), z.decided, Target(y.store, op)) != StatusFor(z.who, z.store, Target(y.store, op));
  }

  lemma DeliveryKeepsTruth(y: Line, m: Move)
    requires Truthful(y) && Can(y, m) && !m.Perform?
    ensures Truthful(Next(y, m))
  {
    hide Offer, Deliver, StatusFor;
    var z := Next(y, m);
    forall d ensures Said(Base(z), z.decided, d) == StatusFor(z.who, z.store, d) {
      assert Said(Base(y), y.decided, d) == StatusFor(y.who, y.store, d);
    }
  }

  // ----- Deliveries keep the belief to what was offered -----

  lemma OpKeepsBelief(y: Line, op: Op)
    requires BelievesOffered(y) && QueueIsWhole(y) && Can(y, Perform(op))
    ensures BelievesOffered(Next(y, Perform(op))) && QueueIsWhole(Next(y, Perform(op)))
  {
    var z, q := Next(y, Perform(op)), y.box.queue;
    forall d ensures Belief(z, d) == Said(Base(z), z.offered, d) && (InQueue(z, d) <==> InQueue(y, d)) {
      assert Belief(y, d) == Said(Base(y), y.offered, d);
      if !y.seeded {
        if i :| 0 <= i < |q| && Mentions(y.who, q[i], d) {
          DrainedMentioned(y.who, Start(y), Start(z), q, d, i);
        } else {
          DrainedUnmentioned(y.who, Start(z), q, d);
        }
      }
    }
  }

  lemma QueuedIsBelieved(y: Line, e: PresenceEvent, d: DeviceId)
    requires Belief(y, d) == Said(Base(y), y.offered, d) && |y.box.queue| < QUEUE_SIZE
    ensures var z := y.(box := Offer(y.box, e), offered := Deliver(y.who, y.offered, e));
            && Belief(z, d) == Said(Base(z), z.offered, d)
            && (InQueue(z, d) <==> InQueue(y, d) || Mentions(y.who, e, d))
  {
    DrainedSnoc(y.who, Start(y), y.box.queue, e);
    QueueGrows(y, y.(box := Offer(y.box, e)), e, d);
  }

  lemma PublishKeepsBelief(y: Line, i: nat)
    requires BelievesOffered(y) && QueueIsWhole(y) && Can(y, Publish(i)) && !y.left
    ensures BelievesOffered(Next(y, Publish(i))) && QueueIsWhole(Next(y, Publish(i)))
  {
    hide Drained, InQueue;
    var z, e := Next(y, Publish(i)), y.air[i];
    if |y.box.queue| < QUEUE_SIZE {
      var taken := y.(box := Offer(y.box, e), offered := Deliver(y.who, y.offered, e));
      forall d ensures Belief(z, d) == Said(Base(z), z.offered, d) &&
                       (InQueue(z, d) <==> InQueue(y, d) || Mentions(y.who, e, d))
      {
        assert Belief(y, d) == Said(Base(y), y.offered, d);
        QueuedIsBelieved(y, e, d);
        SameQueue(taken, z, d);
      }
    } else {
      forall d ensures Belief(z, d) == Said(Base(z), z.offered, d) && (InQueue(z, d) <==> InQueue(y, d)) {
        assert Belief(y, d) == Said(Base(y), y.offered, d);
        SameQueue(y, z, d);
      }
    }
  }

  lemma SameQueue(y: Line, z: Line, d: DeviceId)
    requires z.who == y.who && z.box.queue == y.box.queue
    ensures InQueue(z, d) <==> InQueue(y, d)
  {
  }

  lemma QueueGrows(y: Line, z: Line, e: PresenceEvent, d: DeviceId)
    requires z.who == y.who && z.box.queue == y.box.queue + [e]
    ensures InQueue(z, d) <==> InQueue(y, d) || Mentions(y.who, e, d)
  {
    var q := y.box.queue;
    assert z.box.queue[|q|] == e;
    if i :| 0 <= i < |q| && Mentions(y.who, q[i], d) { assert z.box.queue[i] == q[i]; }
  }

  lemma MoveKeepsBelief(y: Line, m: Move)
    requires BelievesOffered(y) && QueueIsWhole(y) && Can(y, m) && !y.left
    ensures BelievesOffered(Next(y, m)) && QueueIsWhole(Next(y, m))
  {
    match m
    case Perform(op) => OpKeepsBelief(y, op);
    case Publish(i) => PublishKeepsBelief(y, i);
    case SendSnapshot => OffersKept(y, m);
    case Take => OffersKept(y, m);
    case Leave => OffersKept(y, m);
  }

  lemma OffersKept(y: Line, m: Move)
    requires BelievesOffered(y) && QueueIsWhole(y) && Can(y, m) && (m.SendSnapshot? || m.Take? || m.Leave?)
    ensures BelievesOffered(Next(y, m)) && QueueIsWhole(Next(y, m))
  {
    var z := Next(y, m);
    forall d ensures Belief(z, d) == Said(Base(z), z.offered, d) && (!z.seeded ==> (InQueue(z, d) <==> InQueue(y, d))) {
      assert Belief(y, d) == Said(Base(y), y.offered, d);
    }
  }

  // ----- Whole runs -----

  /** Session ids are fresh, and no operation misleads the dashboard. */
  predicate FairMove(y: Line, m: Move) {
    m.Perform? ==> FreshId(y.store, m.op) && (y.left || !Misleads(y, m.op))
  }

  predicate Fair(y: Line, moves: seq<Move>)
    requires Runs(y, moves)
    decreases |moves|
  {
    moves == [] || (FairMove(y, moves[0]) && Fair(Next(y, moves[0]), moves[1..]))
  }

  /** Until the dashboard leaves, the decided word is true and the offered word is believed. */
  ghost predicate Faithful(y: Line) {
    Consistent(y.store) && (y.left || (Truthful(y) && BelievesOffered(y) && QueueIsWhole(y)))
  }

  lemma MoveKeepsFaithful(y: Line, m: Move)
    requires Faithful(y) && Can(y, m) && FairMove(y, m)
    ensures Faithful(Next(y, m))
  {
    if m.Perform? {
      StepKeepsInverse(y.store, m.op);
      StepKeepsStatus(y.store, m.op);
    }
    if !y.left {
      MoveKeepsBelief(y, m);
      if m.Perform? {
        OpKeepsTruthIff(y, m.op);
      } else {
        DeliveryKeepsTruth(y, m);
      }
    }
  }

  lemma {:induction false} RunKeepsFaithful(y: Line, moves: seq<Move>)
    requires Faithful(y) && Runs(y, moves) && Fair(y, moves)
    ensures Faithful(After(y, moves)) && After(y, moves).who == y.who
    decreases |moves|
  {
    if moves != [] {
      MoveKeepsFaithful(y, moves[0]);
      RunKeepsFaithful(Next(y, moves[0]), moves[1..]);
    }
  }

  lemma OpensFaithful(s: Store, who: Watcher)
    requires Consistent(s)
    ensures Faithful(Opened(s, who))
  {
    var y := Opened(s, who);
    assert forall d :: Belief(y, d) == Said(Base(y), y.offered, d);
  }

  /** The dashboard is open, and has read all that it was sent. */
  predicate CaughtUp(y: Line) { !y.left && y.seeded && y.box.queue == [] }

  /** What a dashboard that has caught up shows of a device is true exactly when the last word its channel took
      about that device is the last word the operations decided: for all operations, publishes in any order,
      full queues included. */
  lemma DashboardIsRightIff(s: Store, who: Watcher, moves: seq<Move>, d: DeviceId)
    requires Consistent(s) && Runs(Opened(s, who), moves) && Fair(Opened(s, who), moves)
    requires CaughtUp(After(Opened(s, who), moves))
    ensures var y := After(Opened(s, who), moves);
            Seen(y.view, d) == StatusFor(who, y.store, d) <==> Said(y.sent, y.offered, d) == Said(y.sent, y.decided, d)
  {
    OpensFaithful(s, who);
    RunKeepsFaithful(Opened(s, who), moves);
    var y := After(Opened(s, who), moves);
    assert Belief(y, d) == Said(Base(y), y.offered, d);
    assert Said(Base(y), y.decided, d) == StatusFor(y.who, y.store, d);
  }

  // ----- Publishing in order -----

  /** The event published overtakes none about its device that was decided before it. */
  predicate Overtakes(y: Line, m: Move)
    requires Can(y, m)
  {
    m.Publish? && exists j :: 0 <= j < m.i && y.air[j].device == y.air[m.i].device
  }

  predicate InOrder(y: Line, moves: seq<Move>)
    requires Runs(y, moves)
    decreases |moves|
  {
    moves == [] || (!Overtakes(y, moves[0]) && InOrder(Next(y, moves[0]), moves[1..]))
  }

  /** An event with none about its device before it may as well come first. */
  lemma {:induction false} FirstOfItsDevice(who: Watcher, view: map<DeviceId, Status>, q: seq<PresenceEvent>, i: nat)
    requires i < |q| && forall j :: 0 <= j < i ==> q[j].device != q[i].device
    ensures Drained(who, Deliver(who, view, q[i]), Without(q, i)) == Drained(who, view, q)
    decreases i
  {
    if i == 0 {
      assert Without(q, 0) == q[1..];
    } else {
      FirstOfItsDevice(who, Deliver(who, view, q[0]), q[1..], i - 1);
      assert Without(q, i)[1..] == Without(q[1..], i - 1);
      assert Deliver(who, Deliver(who, view, q[0]), q[i]) == Deliver(who, Deliver(who, view, q[i]), q[0]);
    }
  }

  /** Publishing what is in the air, oldest first, would complete the channel's word to the decided one. */
  predicate OnTheWay(y: Line) { y.left || y.box.missed || Drained(y.who, y.offered, y.air) == y.decided }

  lemma MoveKeepsOnTheWay(y: Line, m: Move)
    requires OnTheWay(y) && Can(y, m) && !Overtakes(y, m)
    ensures OnTheWay(Next(y, m))
  {
    if m.Perform? && Emits(y.store, m.op).Some? {
      DrainedSnoc(y.who, y.offered, y.air, Emits(y.store, m.op).value);
    } else if m.Publish? {
      FirstOfItsDevice(y.who, y.offered, y.air, m.i);
    }
  }

  lemma {:induction false} RunKeepsOnTheWay(y: Line, moves: seq<Move>)
    requires OnTheWay(y) && Runs(y, moves) && InOrder(y, moves)
    ensures OnTheWay(After(y, moves))
    decreases |moves|
  {
    if moves != [] {
      MoveKeepsOnTheWay(y, moves[0]);
      RunKeepsOnTheWay(Next(y, moves[0]), moves[1..]);
    }
  }

  /** Subscribe, then snapshot, converges: whatever operations come between the subscription, the snapshot, the
      publishes and the reads, as long as none misleads the watcher and no event overtakes one of its own device, a
      dashboard whose queue never overflowed shows, once all is published and read, exactly the status the store
      holds for every device its watcher may see, and no other. */
  lemma SubscribeThenSnapshotConverges(s: Store, who: Watcher, moves: seq<Move>)
    requires Consistent(s) && Runs(Opened(s, who), moves)
    requires Fair(Opened(s, who), moves) && InOrder(Opened(s, who), moves)
    ensures var y := After(Opened(s, who), moves);
            CaughtUp(y) && y.air == [] && !y.box.missed ==>
              forall d :: Seen(y.view, d) == StatusFor(who, y.store, d)
  {
    RunKeepsOnTheWay(Opened(s, who), moves);
    var y := After(Opened(s, who), moves);
    if CaughtUp(y) {
      forall d ensures y.offered == y.decided ==> Seen(y.view, d) == StatusFor(who, y.store, d) {
        DashboardIsRightIff(s, who, moves, d);
      }
      RunKeepsWatcher(Opened(s, who), moves);
    }
  }

  lemma {:induction false} RunKeepsWatcher(y: Line, moves: seq<Move>)
    requires Runs(y, moves)
    ensures After(y, moves).who == y.who
    decreases |moves|
  {
    if moves != [] { RunKeepsWatcher(Next(y, moves[0]), moves[1..]); }
  }

  // ----- Runs that go wrong -----

  lemma Begin(y: Line)
    ensures Runs(y, []) && After(y, []) == y && Fair(y, []) && InOrder(y, [])
  {
  }

  lemma {:induction false} Extend(y: Line, moves: seq<Move>, m: Move) returns (r: seq<Move>)
    requires Runs(y, moves) && Can(After(y, moves), m)
    ensures r == moves + [m] && Runs(y, r) && After(y, r) == Next(After(y, moves), m)
    ensures Fair(y, moves) && FairMove(After(y, moves), m) ==> Fair(y, r)
    ensures InOrder(y, moves) && !Overtakes(After(y, moves), m) ==> InOrder(y, r)
    decreases |moves|
  {
    r := moves + [m];
    if moves != [] {
      var rest := Extend(Next(y, moves[0]), moves[1..], m);
      assert r[1..] == rest;
    } else {
      assert r[1..] == [];
    }
  }

  /** Two events in the air are published the other way round, and read. */
  lemma PublishSwapped(y0: Line, moves: seq<Move>, first: PresenceEvent, second: PresenceEvent) returns (r: seq<Move>)
    requires Runs(y0, moves) && Fair(y0, moves)
    requires var y := After(y0, moves);
             y.seeded && !y.left && !y.broken && y.air == [first, second] && y.box == Mailbox([], false)
    ensures Runs(y0, r) && Fair(y0, r)
    ensures var y, z := After(y0, moves), After(y0, r);
            && CaughtUp(z) && z.air == [] && !z.box.missed && z.store == y.store
            && z.view == Deliver(y.who, Deliver(y.who, y.view, second), first)
  {
    hide Runs, After, Fair, InOrder, Deliver;
    r := Extend(y0, moves, Publish(1));
    r := Extend(y0, r, Publish(0));
    assert After(y0, r).box.queue == [second, first];
    r := Extend(y0, r, Take);
    r := Extend(y0, r, Take);
  }

  /** One event overtaking another is enough: a device that is online goes and comes back, its two events are
      published the other way round, and the drained dashboard shows it offline for good. */
  lemma OvertakingHappens(who: Watcher, d: DeviceId, meta: DeviceMeta) returns (s: Store, r: seq<Move>)
    requires SeesMeta(who, meta)
    ensures Consistent(s) && Runs(Opened(s, who), r) && Fair(Opened(s, who), r)
    ensures var y := After(Opened(s, who), r);
            && CaughtUp(y) && y.air == [] && !y.box.missed
            && Seen(y.view, d) == Offline && StatusFor(who, y.store, d) == Online
  {
    hide Runs, After, Fair, InOrder;
    s := Store(map[d := DevicePresence(meta, Online, "", 0)], map[], map[]);
    var y0 := Opened(s, who);
    var off := Announce(s, DeviceOffline, d, Offline, "", 0);
    Begin(y0);
    r := Extend(y0, [], SendSnapshot);
    r := Extend(y0, r, Perform(SetOffline(d, 0)));
    r := Extend(y0, r, Perform(SetOnline(d, meta, 0)));
    r := PublishSwapped(y0, r, off, Announce(s, DeviceOnline, d, Online, "", 0));
  }

  /** A session registered on an absent device is announced as in session, and a super admin's drained dashboard
      shows it so although the store has no such device. */
  lemma PhantomSessionDiverges(who: Watcher, d: DeviceId, id: SessionId) returns (r: seq<Move>)
    requires who.superAdmin
    ensures Runs(Opened(EMPTY, who), r) && InOrder(Opened(EMPTY, who), r)
    ensures var y := After(Opened(EMPTY, who), r);
            CaughtUp(y) && y.air == [] && !y.box.missed && Seen(y.view, d) == InSession && d !in y.store.devices
  {
    hide Runs, After, Fair, InOrder;
    var y0 := Opened(EMPTY, who);
    Begin(y0);
    r := Extend(y0, [], SendSnapshot);
    r := Extend(y0, r, Perform(Register(id, d, "", "", 0)));
    r := Extend(y0, r, Publish(0));
    r := Extend(y0, r, Take);
  }

  /** A device reassigned away from a watching admin, and offline since, stays online on that admin's drained
      dashboard, because its last event is filtered by the new assignment. */
  lemma LostSightStaysOnline(who: Watcher, d: DeviceId, meta: DeviceMeta) returns (r: seq<Move>)
    requires !who.superAdmin && SeesMeta(who, meta)
    ensures Runs(Opened(EMPTY, who), r) && InOrder(Opened(EMPTY, who), r)
    ensures var y := After(Opened(EMPTY, who), r);
            CaughtUp(y) && y.air == [] && !y.box.missed && Seen(y.view, d) == Online && d !in y.store.devices
  {
    hide Runs, After, Fair, InOrder;
    var y0 := Opened(EMPTY, who);
    Begin(y0);
    r := Extend(y0, [], Perform(SetOnline(d, meta, 0)));
    r := Extend(y0, r, Publish(0));
    r := Extend(y0, r, SendSnapshot);
    r := Extend(y0, r, Take);
    r := Extend(y0, r, Perform(Reassign(d, None, None)));
    r := Extend(y0, r, Perform(SetOffline(d, 0)));
    r := Extend(y0, r, Publish(0));
    r := Extend(y0, r, Take);
  }

  // ----- Leaving -----

  /** Some continuation sends on the closed channel. */
  ghost predicate MayBreak(y: Line) {
    exists moves :: Runs(y, moves) && After(y, moves).broken
  }

  lemma {:induction false} NothingInTheAirIsSafe(y: Line, moves: seq<Move>)
    requires y.left && y.air == [] && !y.broken && Runs(y, moves)
    ensures !After(y, moves).broken
    decreases |moves|
  {
    if moves != [] { NothingInTheAirIsSafe(Next(y, moves[0]), moves[1..]); }
  }

  /** Unsubscribing is safe exactly when no event for the channel is in the air: otherwise its publisher, which
      took the channel from a list copied before, may send on it after it is closed. */
  lemma LeavingIsSafeIff(y: Line)
    requires Can(y, Leave)
    ensures MayBreak(Next(y, Leave)) <==> y.air != []
  {
    var z := Next(y, Leave);
    if y.air != [] {
      var r := Extend(z, [], Publish(0));
      assert Runs(z, r) && After(z, r).broken;
    } else {
      forall moves | Runs(z, moves) ensures !After(z, moves).broken {
        NothingInTheAirIsSafe(z, moves);
      }
    }
  }
}
