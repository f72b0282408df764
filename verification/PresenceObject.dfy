/** `MemoryStore` as the object it is: maps and subscriber channels updated in place. Every method is one
    critical section followed by its `publish`, proved to be the step `Apply`/`Emits` describe. What other goroutines
    may do between the two is the subject of PresenceFeed. */
module PresenceObject {
  import opened Basics
  import opened Presence
  import Feed = PresenceFeed

  /** A subscriber's channel of sixteen events. */
  class Channel {
    var queue: seq<PresenceEvent>
    var closed: bool
    ghost var missed: bool

    constructor ()
      ensures queue == [] && !closed && !missed
    {
      queue, closed, missed := [], false, false;
    }

    /** A non-blocking send: an event that does not fit is dropped. A send on a closed channel would panic. */
    method Send(e: PresenceEvent)
      requires !closed
      modifies this
      ensures !closed
      ensures queue == if |old(queue)| < 16 then old(queue) + [e] else old(queue)
      ensures Feed.Mailbox(queue, missed) == Feed.Offer(Feed.Mailbox(old(queue), old(missed)), e)
    {
      if |queue| < Feed.QUEUE_SIZE {
        queue := queue + [e];
      } else {
        missed := true;
      }
    }
  }

  /** `c` after an event was offered to it. */
  twostate predicate Offered(c: Channel, e: Option<PresenceEvent>)
    reads c
  {
    && c.closed == old(c.closed)
    && (var box := Feed.Mailbox(old(c.queue), old(c.missed));
        Feed.Mailbox(c.queue, c.missed) == if e.Some? then Feed.Offer(box, e.value) else box)
  }

  ghost predicate AllOpen(subs: set<Channel>)
    reads subs
  {
    forall c :: c in subs ==> !c.closed
  }

  method Publish(subs: set<Channel>, event: PresenceEvent)
    requires AllOpen(subs)
    modifies subs
    ensures AllOpen(subs)
    ensures forall c :: c in subs ==> Offered(c, Some(event))
  {
    var rest := subs;
    while rest != {}
      invariant rest <= subs
      invariant forall c :: c in rest ==> c.queue == old(c.queue) && c.closed == old(c.closed) && c.missed == old(c.missed)
      invariant forall c :: c in subs - rest ==> Offered(c, Some(event))
      decreases rest
    {
      var c :| c in rest;
      c.Send(event);
      rest := rest - {c};
    }
    assert subs - rest == subs;
  }

  function ChannelsIn(subs: map<string, seq<Channel>>): set<Channel> {
    set id, c | id in subs && c in subs[id] :: c
  }

  predicate Slot(subs: map<string, seq<Channel>>, id: string, i: int) { id in subs && 0 <= i < |subs[id]| }

  /** No channel is entered twice, under one subscriber or two, and no subscriber is left without one. */
  ghost predicate Distinct(subs: map<string, seq<Channel>>) {
    && (forall j, k, x, y :: Slot(subs, j, x) && Slot(subs, k, y) && subs[j][x] == subs[k][y] ==> j == k && x == y)
    && (forall j :: j in subs ==> subs[j] != [])
  }

  function WithoutAt(subs: map<string, seq<Channel>>, id: string, i: nat): map<string, seq<Channel>>
    requires id in subs && i < |subs[id]|
  {
    var rest := subs[id][..i] + subs[id][i + 1..];
    if rest == [] then subs - {id} else subs[id := rest]
  }

  lemma SlotBefore(subs: map<string, seq<Channel>>, id: string, i: nat, j: string, x: int)
    requires Distinct(subs) && Slot(subs, id, i) && Slot(WithoutAt(subs, id, i), j, x)
    ensures var x' := if j == id && x >= i then x + 1 else x;
            Slot(subs, j, x') && subs[j][x'] == WithoutAt(subs, id, i)[j][x] != subs[id][i]
  {
    assert Slot(subs, j, if j == id && x >= i then x + 1 else x);
  }

  lemma SlotAfter(subs: map<string, seq<Channel>>, id: string, i: nat, j: string, x: int)
    requires Slot(subs, id, i) && Slot(subs, j, x) && !(j == id && x == i)
    ensures var x' := if j == id && x > i then x - 1 else x;
            Slot(WithoutAt(subs, id, i), j, x') && WithoutAt(subs, id, i)[j][x'] == subs[j][x]
  {
    if j == id { assert (subs[id][..i] + subs[id][i + 1..])[if x > i then x - 1 else x] == subs[j][x]; }
  }

  lemma RemovalKeepsDistinct(subs: map<string, seq<Channel>>, id: string, i: nat)
    requires Distinct(subs) && id in subs && i < |subs[id]|
    ensures Distinct(WithoutAt(subs, id, i))
    ensures ChannelsIn(WithoutAt(subs, id, i)) == ChannelsIn(subs) - {subs[id][i]}
  {
    var after, gone := WithoutAt(subs, id, i), subs[id][i];
    assert Slot(subs, id, i);
    forall j, x | Slot(after, j, x)
      ensures var x' := if j == id && x >= i then x + 1 else x;
              Slot(subs, j, x') && subs[j][x'] == after[j][x] != gone
    {
      SlotBefore(subs, id, i, j, x);
    }
    forall c | c in ChannelsIn(after) ensures c in ChannelsIn(subs) - {gone} {
      var j :| j in after && c in after[j];
      var x :| 0 <= x < |after[j]| && after[j][x] == c;
      assert Slot(after, j, x) && c in subs[j];
    }
    forall c | c in ChannelsIn(subs) - {gone} ensures c in ChannelsIn(after) {
      var j :| j in subs && c in subs[j];
      var x :| 0 <= x < |subs[j]| && subs[j][x] == c;
      assert Slot(subs, j, x);
      SlotAfter(subs, id, i, j, x);
      assert c in after[j];
    }
  }

  lemma EntryKeepsDistinct(subs: map<string, seq<Channel>>, id: string, ch: Channel)
    requires Distinct(subs) && ch !in ChannelsIn(subs)
    ensures var after := subs[id := (if id in subs then subs[id] else []) + [ch]];
            Distinct(after) && ChannelsIn(after) == ChannelsIn(subs) + {ch}
  {
    var before := if id in subs then subs[id] else [];
    var after := subs[id := before + [ch]];
    assert ch in after[id];
    forall j, x | Slot(after, j, x)
      ensures (j == id && x == |before| && after[j][x] == ch) || (Slot(subs, j, x) && subs[j][x] == after[j][x] != ch)
    {
      if Slot(subs, j, x) { assert subs[j][x] in ChannelsIn(subs) by { assert subs[j][x] in subs[j]; } }
    }
    forall c | c in ChannelsIn(subs) ensures c in ChannelsIn(after) {
      var j :| j in subs && c in subs[j];
      assert j in after && c in after[j];
    }
  }

  class MemoryStore {
    var devices: map<DeviceId, DevicePresence>
    var sessions: map<SessionId, ActiveSession>
    var deviceSess: map<DeviceId, SessionId>
    var subscribers: map<string, seq<Channel>>

    function View(): Store
      reads this
    {
      Store(devices, sessions, deviceSess)
    }

    /** `subscriberSnapshotLocked`: every subscribed channel. */
    function Channels(): set<Channel>
      reads this
    {
      ChannelsIn(subscribers)
    }

    ghost predicate Valid()
      reads this, Channels()
    {
      Distinct(subscribers) && AllOpen(Channels())
    }

    constructor ()
      ensures Valid() && View() == EMPTY && Channels() == {} && subscribers == map[]
    {
      devices, sessions, deviceSess, subscribers := map[], map[], map[], map[];
    }

    method SetDeviceOnline(deviceId: DeviceId, meta: DeviceMeta, now: Instant) returns (snapshot: DevicePresence)
      requires Valid()
      modifies this, Channels()
      ensures Valid()
      ensures var op := SetOnline(deviceId, meta, now);
              && View() == Apply(old(View()), op) && subscribers == old(subscribers)
              && snapshot == devices[deviceId]
              && forall c :: c in Channels() ==> Offered(c, Emits(old(View()), op))
    {
      var p := if deviceId in devices then devices[deviceId] else DevicePresence(meta, Offline, "", now);
      p := p.(meta := meta, lastSeen := now);
      if deviceId in deviceSess {
        p := p.(status := InSession);
      } else {
        p := p.(status := Online);
      }
      devices := devices[deviceId := p];
      snapshot := p;
      var event := PresenceEvent(DeviceOnline, deviceId, p.status, "", p.meta.org, p.meta.owner, p.meta.group, now);
      Publish(Channels(), event);
    }

    method TouchDevice(deviceId: DeviceId, ip: string, now: Instant)
      requires Valid()
      modifies this
      ensures Valid()
      ensures View() == Apply(old(View()), Touch(deviceId, ip, now)) && subscribers == old(subscribers)
    {
      if deviceId in devices {
        var p := devices[deviceId].(lastSeen := now);
        if ip != "" {
          p := p.(meta := p.meta.(ip := ip));
        }
        devices := devices[deviceId := p];
      }
    }

    method UpdateDeviceAssignment(deviceId: DeviceId, admin: Option<string>, team: Option<string>)
      requires Valid()
      modifies this
      ensures Valid()
      ensures View() == Apply(old(View()), Reassign(deviceId, admin, team)) && subscribers == old(subscribers)
    {
      if deviceId in devices {
        var p := devices[deviceId];
        devices := devices[deviceId := p.(meta := p.meta.(owner := admin, group := team))];
      }
    }

    method SetDeviceOffline(deviceId: DeviceId, now: Instant)
      requires Valid()
      modifies this, Channels()
      ensures Valid()
      ensures var op := SetOffline(deviceId, now);
              && View() == Apply(old(View()), op) && subscribers == old(subscribers)
              && forall c :: c in Channels() ==> Offered(c, Emits(old(View()), op))
    {
      if deviceId !in devices {
        return;
      }
      var meta := devices[deviceId].meta;
      devices := devices - {deviceId};
      if deviceId in deviceSess {
        var sessId := deviceSess[deviceId];
        deviceSess := deviceSess - {deviceId};
        sessions := sessions - {sessId};
      }
      var event := PresenceEvent(DeviceOffline, deviceId, Offline, "", meta.org, meta.owner, meta.group, now);
      Publish(Channels(), event);
    }

    method RegisterSession(id: SessionId, deviceId: DeviceId, viewer: string, mode: string, now: Instant)
      returns (r: Result<ActiveSession, string>)
      requires Valid()
      modifies this, Channels()
      ensures Valid()
      ensures var op := Register(id, deviceId, viewer, mode, now);
              && View() == Apply(old(View()), op) && subscribers == old(subscribers)
              && forall c :: c in Channels() ==> Offered(c, Emits(old(View()), op))
      ensures r.Err? <==> deviceId in old(deviceSess)
      ensures r.Ok? ==> r.value == ActiveSession(id, deviceId, viewer, mode, now)
      ensures r.Ok? && deviceId in devices ==> devices[deviceId].status == InSession && devices[deviceId].active == id
    {
      if deviceId in deviceSess {
        return Err("device already has an active monitoring session");
      }
      var sess := ActiveSession(id, deviceId, viewer, mode, now);
      sessions := sessions[id := sess];
      deviceSess := deviceSess[deviceId := id];
      var event := PresenceEvent(SessionStart, deviceId, InSession, id, "", None, None, now);
      if deviceId in devices {
        var dev := devices[deviceId];
        devices := devices[deviceId := dev.(status := InSession, active := id)];
        event := event.(org := dev.meta.org, owner := dev.meta.owner, group := dev.meta.group);
      }
      Publish(Channels(), event);
      r := Ok(sess);
    }

    method EndSession(id: SessionId, now: Instant) returns (ended: Option<ActiveSession>)
      requires Valid()
      modifies this, Channels()
      ensures Valid()
      ensures var op := End(id, now);
              && View() == Apply(old(View()), op) && subscribers == old(subscribers)
              && forall c :: c in Channels() ==> Offered(c, Emits(old(View()), op))
      ensures ended == if id in old(sessions) then Some(old(sessions)[id]) else None
    {
      if id !in sessions {
        return None;
      }
      var sess := sessions[id];
      sessions := sessions - {id};
      deviceSess := deviceSess - {sess.device};
      var event := PresenceEvent(SessionEnd, sess.device, Online, id, "", None, None, now);
      if sess.device in devices {
        var dev := devices[sess.device];
        devices := devices[sess.device := dev.(status := Online, active := "")];
        event := event.(org := dev.meta.org, owner := dev.meta.owner, group := dev.meta.group);
      }
      Publish(Channels(), event);
      ended := Some(sess);
    }

    /** The channels of one subscriber. */
    function Of(id: string): seq<Channel>
      reads this
    {
      if id in subscribers then subscribers[id] else []
    }

    /** A fresh, empty, open channel is entered last under this subscriber. */
    method Subscribe(id: string) returns (ch: Channel)
      requires Valid()
      modifies this
      ensures Valid() && View() == old(View()) && fresh(ch) && ch.queue == [] && !ch.closed && !ch.missed
      ensures Channels() == old(Channels()) + {ch}
      ensures Of(id) == old(Of(id)) + [ch] && forall k :: k != id ==> Of(k) == old(Of(k))
    {
      ch := new Channel();
      var before := if id in subscribers then subscribers[id] else [];
      EntryKeepsDistinct(subscribers, id, ch);
      subscribers := subscribers[id := before + [ch]];
    }

    /** Removes and closes one subscription of `id`; a channel that is not subscribed under it is left alone. */
    method Unsubscribe(id: string, ch: Channel)
      requires Valid()
      modifies this, ch
      ensures Valid() && View() == old(View())
      ensures ch.closed == (old(ch.closed) || ch in old(Of(id)))
      ensures forall c :: c in Of(id) <==> c in old(Of(id)) && c != ch
      ensures forall k :: k != id ==> Of(k) == old(Of(k)) && (k in subscribers <==> k in old(subscribers))
      ensures id in subscribers ==> subscribers[id] != []
    {
      var subs := if id in subscribers then subscribers[id] else [];
      var i := 0;
      while i < |subs| && subs[i] != ch
        invariant 0 <= i <= |subs|
        invariant ch !in subs[..i]
      {
        i := i + 1;
      }
      if i < |subs| {
        RemovalKeepsDistinct(subscribers, id, i);
        subscribers := subscribers[id := subs[..i] + subs[i + 1..]];
        ch.closed := true;
      }
      if id in subscribers && subscribers[id] == [] {
        subscribers := subscribers - {id};
      }
      if i < |subs| {
        assert subscribers == WithoutAt(old(subscribers), id, i);
        assert Slot(old(subscribers), id, i);
        assert forall x :: 0 <= x < |subs| && x != i ==> Slot(old(subscribers), id, x);
      } else {
        assert subscribers == old(subscribers);
      }
    }
  }
}
