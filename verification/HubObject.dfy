/** The hub as the object it is: two maps under one lock, over a presence store, updated in place. Each
    method is one critical section (or one store call) of the protocol in Hub, is proved to be it, and keeps
    the protocol's invariant. */
module HubObject {
  import opened Basics
  import opened Presence
  import opened PresenceObject
  import opened Hub

  class Relay {
    var agents: map<DeviceId, ConnId>
    var viewers: map<DeviceId, SessionId>
    const presence: MemoryStore

    // The goroutines: how far each connection and each operator has come.
    var conns: map<ConnId, Conn>
    var people: map<SessionId, Viewer>

    ghost var last: map<DeviceId, ConnId>
    ghost var left: set<ConnId>
    ghost var released: seq<SessionId>

    ghost function View(): State
      reads this, presence
    {
      State(agents, viewers, presence.View(), conns, people, last, left, released)
    }

    constructor ()
      ensures View() == START && Inv(View()) && presence.Valid() && fresh(presence)
    {
      presence := new MemoryStore();
      agents, viewers, conns, people, last, left, released := map[], map[], map[], map[], map[], {}, [];
    }

    method Advance(c: ConnId, p: ConnPhase)
      requires c in conns
      modifies this`conns
      ensures conns == old(conns)[c := old(conns)[c].(phase := p)]
    {
      conns := conns[c := conns[c].(phase := p)];
    }

    /** `registerAgent`, under the lock; returns the connection to evict. */
    method RegisterAgent(c: ConnId) returns (previous: Option<ConnId>)
      requires Inv(View()) && Enabled(View(), AgentSwaps(c))
      modifies this
      ensures View() == Step(old(View()), AgentSwaps(c)) && Inv(View())
      ensures previous == Lookup(old(agents), old(conns)[c].device)
    {
      StepKeepsInv(View(), AgentSwaps(c));
      var d := conns[c].device;
      previous := if d in agents then Some(agents[d]) else None;
      agents := agents[d := c];
      last := last[d := c];
      Advance(c, Swapped);
    }

    /** `registerAgent`, after the lock. */
    method AnnounceAgent(c: ConnId, meta: DeviceMeta, now: Instant)
      requires presence.Valid() && Inv(View()) && Enabled(View(), AgentOnline(c, meta, now))
      modifies this, presence, presence.Channels()
      ensures presence.Valid()
      ensures View() == Step(old(View()), AgentOnline(c, meta, now)) && Inv(View())
      ensures var d := old(conns)[c].device; d in presence.devices && presence.devices[d].meta == meta
    {
      StepKeepsInv(View(), AgentOnline(c, meta, now));
      var _ := presence.SetDeviceOnline(conns[c].device, meta, now);
      Advance(c, Serving);
    }

    /** `unregisterAgent`, under the lock: a stale connection leaves its successor's entry alone. */
    method UnregisterAgent(c: ConnId) returns (viewer: Option<SessionId>)
      requires Inv(View()) && Enabled(View(), AgentLeaves(c))
      modifies this
      ensures View() == Step(old(View()), AgentLeaves(c)) && Inv(View())
      ensures viewer == Lookup(old(viewers), old(conns)[c].device)
    {
      hide Inv, Apply;
      StepKeepsInv(View(), AgentLeaves(c));
      var d := conns[c].device;
      if d in agents && agents[d] == c {
        agents := agents - {d};
      }
      viewer := if d in viewers then Some(viewers[d]) else None;
      left := left + {c};
      Advance(c, Leaving(viewer));
    }

    /** `unregisterAgent`, at its end. */
    method RetireAgent(c: ConnId, now: Instant)
      requires presence.Valid() && Inv(View()) && Enabled(View(), AgentOffline(c, now))
      modifies this, presence, presence.Channels()
      ensures presence.Valid()
      ensures View() == Step(old(View()), AgentOffline(c, now)) && Inv(View())
    {
      StepKeepsInv(View(), AgentOffline(c, now));
      presence.SetDeviceOffline(conns[c].device, now);
      Advance(c, Gone);
    }

    /** `ServeSession`'s look at the agents map. */
    method AgentOnlineNow(d: DeviceId) returns (online: bool)
      ensures forall v, admin :: v !in people ==> (online <==> Enabled(View(), ViewerOpens(v, d, admin)))
    {
      online := d in agents;
    }

    /** `DeleteDevice`: the device goes offline in the store, whoever is connected or watching. */
    method DeleteDevice(d: DeviceId, now: Instant)
      requires presence.Valid() && Inv(View())
      modifies this, presence, presence.Channels()
      ensures presence.Valid()
      ensures View() == Step(old(View()), Housekeeping(SetOffline(d, now))) && Inv(View())
    {
      StepKeepsInv(View(), Housekeeping(SetOffline(d, now)));
      presence.SetDeviceOffline(d, now);
    }

    /** `ServeSession`'s claim; false if the device is already being viewed. */
    method Claim(v: SessionId, now: Instant) returns (ok: bool)
      requires presence.Valid() && Inv(View()) && Enabled(View(), ViewerClaims(v, now))
      modifies this, presence, presence.Channels()
      ensures presence.Valid()
      ensures View() == Step(old(View()), ViewerClaims(v, now)) && Inv(View())
      ensures ok <==> people[v].phase.Claimed?
      ensures ok ==> v in presence.sessions
      ensures ok ==>
                presence.sessions[v] == ActiveSession(v, old(people)[v].device, old(people)[v].admin, "view", now)
    {
      StepKeepsInv(View(), ViewerClaims(v, now));
      var r := presence.RegisterSession(v, people[v].device, people[v].admin, "view", now);
      ok := r.Ok?;
      people := people[v := people[v].(phase := if ok then Claimed else Refused)];
    }

    method RegisterViewer(v: SessionId) returns (previous: Option<SessionId>)
      requires Inv(View()) && Enabled(View(), ViewerRegisters(v))
      modifies this
      ensures View() == Step(old(View()), ViewerRegisters(v)) && Inv(View())
      ensures previous == Lookup(old(viewers), old(people)[v].device)
    {
      StepKeepsInv(View(), ViewerRegisters(v));
      var d := people[v].device;
      previous := if d in viewers then Some(viewers[d]) else None;
      viewers := viewers[d := v];
      people := people[v := people[v].(phase := Watching)];
    }

    /** `unregisterAgent` calling `endSession` on the viewer it found: whoever calls first, and nobody else,
        starts the body. */
    method EndViewer(c: ConnId, v: SessionId) returns (first: bool)
      requires Inv(View()) && Enabled(View(), AgentEndsViewer(c)) && conns[c].phase.viewer == Some(v)
      modifies this`people
      ensures View() == Step(old(View()), AgentEndsViewer(c)) && Inv(View())
      ensures first <==> old(people)[v].end.NotEnded?
    {
      StepKeepsInv(View(), AgentEndsViewer(c));
      first := people[v].end.NotEnded?;
      if first {
        people := people[v := people[v].(end := Removing)];
      }
      assert people == old(people)[v := people[v]];
    }

    /** The operator's own deferred `endSession`. */
    method LeaveSession(v: SessionId) returns (first: bool)
      requires Inv(View()) && Enabled(View(), ViewerLeaves(v))
      modifies this`people
      ensures View() == Step(old(View()), ViewerLeaves(v)) && Inv(View())
      ensures first <==> old(people)[v].end.NotEnded?
    {
      StepKeepsInv(View(), ViewerLeaves(v));
      first := people[v].end.NotEnded?;
      var p := people[v].(phase := Ending);
      if first {
        p := p.(end := Removing);
      }
      people := people[v := p];
    }

    /** The body of `endSession`, under the lock. */
    method RemoveViewer(v: SessionId)
      requires Inv(View()) && Enabled(View(), EndRemoves(v))
      modifies this
      ensures View() == Step(old(View()), EndRemoves(v)) && Inv(View())
      ensures forall d :: d in viewers <==> d in old(viewers) && old(viewers)[d] != v
      ensures forall d :: d in viewers ==> viewers[d] == old(viewers)[d]
    {
      StepKeepsInv(View(), EndRemoves(v));
      var d := people[v].device;
      if d in viewers && viewers[d] == v {
        viewers := viewers - {d};
      }
      people := people[v := people[v].(end := Releasing)];
    }

    /** The body of `endSession`, releasing the registry. */
    method ReleaseSession(v: SessionId, now: Instant)
      requires presence.Valid() && Inv(View()) && Enabled(View(), EndReleases(v, now))
      modifies this, presence, presence.Channels()
      ensures presence.Valid()
      ensures View() == Step(old(View()), EndReleases(v, now)) && Inv(View())
    {
      StepKeepsInv(View(), EndReleases(v, now));
      var _ := presence.EndSession(v, now);
      released := released + [v];
      people := people[v := people[v].(end := Released)];
    }
  }
}
