/** Whose devices a dashboard shows: none but those its watcher is entitled to see, by the routing columns of a record
    or an event. */
module PresenceSight {
  import opened Basics
  import opened Presence
  import opened PresenceFeed

  /** An admin sees the devices assigned to it or to one of its teams, a super admin those of its organisation and
      events that name none. */
  ghost predicate Entitled(who: Watcher, org: string, owner: Option<string>, group: Option<string>) {
    || (who.superAdmin && (org == who.org || org == ""))
    || (!who.superAdmin && (owner == Some(who.user) || exists team :: team in who.teams && group == Some(team)))
  }

  lemma VisibleIffEntitled(who: Watcher, org: string, owner: Option<string>, group: Option<string>)
    ensures Visible(who, org, owner, group) <==> Entitled(who, org, owner, group)
  {
    if group.Some? && group.value in who.teams { assert group == Some(group.value); }
  }

  /** The move tells of `d` somebody entitled to it: the snapshot, with a record of it, or an operation, with an
      event about it. */
  ghost predicate Reveals(y: Line, m: Move, d: DeviceId) {
    match m
    case SendSnapshot =>
      d in y.store.devices &&
      var meta := y.store.devices[d].meta;
      Entitled(y.who, meta.org, meta.owner, meta.group)
    case Perform(op) =>
      var e := Emits(y.store, op);
      e.Some? && e.value.device == d && Entitled(y.who, e.value.org, e.value.owner, e.value.group)
    case _ => false
  }

  /** The state before move `i`. */
  function At(y: Line, moves: seq<Move>, i: nat): Line
    requires Runs(y, moves) && i <= |moves|
    decreases i
  {
    if i == 0 then y else At(Next(y, moves[0]), moves[1..], i - 1)
  }

  ghost predicate RevealedBy(y: Line, moves: seq<Move>, d: DeviceId)
    requires Runs(y, moves)
  {
    exists i :: 0 <= i < |moves| && Reveals(At(y, moves, i), moves[i], d)
  }

  predicate ToldOf(y: Line, d: DeviceId) { d in y.sent || d in y.decided }

  lemma TellingReveals(y: Line, m: Move, d: DeviceId)
    requires Can(y, m) && !ToldOf(y, d) && ToldOf(Next(y, m), d)
    ensures Reveals(y, m, d)
  {
    if m.SendSnapshot? {
      var meta := y.store.devices[d].meta;
      VisibleIffEntitled(y.who, meta.org, meta.owner, meta.group);
    } else {
      var e := Emits(y.store, m.op).value;
      VisibleIffEntitled(y.who, e.org, e.owner, e.group);
    }
  }

  lemma {:induction false} ToldWasRevealed(y: Line, moves: seq<Move>, d: DeviceId)
    requires Runs(y, moves) && !ToldOf(y, d) && ToldOf(After(y, moves), d)
    ensures RevealedBy(y, moves, d)
    decreases |moves|
  {
    if moves != [] {
      var next := Next(y, moves[0]);
      if ToldOf(next, d) {
        TellingReveals(y, moves[0], d);
        assert At(y, moves, 0) == y;
      } else {
        ToldWasRevealed(next, moves[1..], d);
        var i :| 0 <= i < |moves[1..]| && Reveals(At(next, moves[1..], i), moves[1..][i], d);
        assert At(y, moves, i + 1) == At(next, moves[1..], i) && moves[i + 1] == moves[1..][i];
      }
    }
  }

  /** The watcher was told of every event of these that it sees. */
  ghost predicate AllTold(y: Line, q: seq<PresenceEvent>) {
    forall i :: 0 <= i < |q| && SeesEvent(y.who, q[i]) ==> q[i].device in y.decided
  }

  /** What is on its way to the dashboard, or shown, it was told of. */
  ghost predicate OnlyTold(y: Line) {
    && AllTold(y, y.air) && AllTold(y, y.box.queue)
    && (forall d :: d in y.view ==> ToldOf(y, d))
    && (!y.seeded ==> y.view == map[])
  }

  lemma PerformKeepsTold(y: Line, op: Op)
    requires OnlyTold(y) && Can(y, Perform(op))
    ensures OnlyTold(Next(y, Perform(op)))
  {
    hide Apply, Emits, SeesEvent;
    var z := Next(y, Perform(op));
    assert AllTold(z, y.air) && AllTold(z, y.box.queue);
  }

  lemma FewerTold(y: Line, z: Line, q: seq<PresenceEvent>, i: nat)
    requires AllTold(y, q) && i < |q| && z.who == y.who && z.decided == y.decided
    ensures AllTold(z, Without(q, i))
  {
    assert forall j :: 0 <= j < |q| - 1 ==> Without(q, i)[j] == q[if j < i then j else j + 1];
  }

  lemma OneMoreTold(y: Line, z: Line, q: seq<PresenceEvent>, i: nat)
    requires AllTold(y, q) && AllTold(y, y.air) && i < |y.air| && z.who == y.who && z.decided == y.decided
    ensures AllTold(z, q + [y.air[i]]) && AllTold(z, q)
  {
  }

  lemma PublishKeepsTold(y: Line, i: nat)
    requires OnlyTold(y) && Can(y, Publish(i))
    ensures OnlyTold(Next(y, Publish(i)))
  {
    hide SeesEvent, AllTold, Without, Deliver;
    var z := Next(y, Publish(i));
    FewerTold(y, z, y.air, i);
    OneMoreTold(y, z, y.box.queue, i);
  }

  lemma TakeKeepsTold(y: Line)
    requires OnlyTold(y) && Can(y, Take)
    ensures OnlyTold(Next(y, Take))
  {
    hide SeesEvent;
    var z := Next(y, Take);
    assert forall j :: 0 <= j < |z.box.queue| ==> z.box.queue[j] == y.box.queue[j + 1];
  }

  lemma MoveKeepsTold(y: Line, m: Move)
    requires OnlyTold(y) && Can(y, m)
    ensures OnlyTold(Next(y, m))
  {
    match m
    case Perform(op) => PerformKeepsTold(y, op);
    case Publish(i) => PublishKeepsTold(y, i);
    case Take => TakeKeepsTold(y);
    case _ =>
  }

  lemma {:induction false} RunKeepsTold(y: Line, moves: seq<Move>)
    requires OnlyTold(y) && Runs(y, moves)
    ensures OnlyTold(After(y, moves))
    decreases |moves|
  {
    if moves != [] {
      MoveKeepsTold(y, moves[0]);
      RunKeepsTold(Next(y, moves[0]), moves[1..]);
    }
  }

  /** Over every run, whatever is reassigned, misled or overtaken: a dashboard shows a device only if, at some step, a
      record or an event about it carried columns that entitle the watcher to it. */
  lemma NothingUnseenIsShown(s: Store, who: Watcher, moves: seq<Move>, d: DeviceId)
    requires Runs(Opened(s, who), moves) && d in After(Opened(s, who), moves).view
    ensures RevealedBy(Opened(s, who), moves, d)
  {
    RunKeepsTold(Opened(s, who), moves);
    ToldWasRevealed(Opened(s, who), moves, d);
  }
}
