/** The agent's session manager: `Start` replaces whatever runs, but drops its lock while the peer
    connection is being built, so Stop, StopAll and other Starts can come in between. Every section under
    the lock is one atomic step, and so are the end of a build and the close that follows a refused
    install; a run is any interleaving, of any number of callers. Calls of `Start` are numbered, and a call's
    number also names its context and the session it builds. How one connection calls the manager is in
    AgentConnection. */
module SessionManager {
  import opened Basics

  type StartId = nat
  type SessionId = string

  /** How far a call of `Start` has come: `Built` awaits its second critical section, `Rejected` has left
      it and is about to close what it built. */
  datatype Phase = Building | Failed | Built | Rejected | Discarded | Installed

  datatype Call = Call(id: SessionId, phase: Phase)

  /** `cancelled` are the calls whose context is done; `parentDone` that the context they derive from is. */
  datatype State = State(
    cancel: Option<StartId>, sessionId: SessionId, live: Option<StartId>,
    calls: map<StartId, Call>, cancelled: set<StartId>, closed: set<StartId>, parentDone: bool)

  const IDLE := State(None, "", None, map[], {}, {}, false)

  datatype Action =
    | StartBegins(k: StartId, id: SessionId)
    | BuildFails(k: StartId)
    | BuildSucceeds(k: StartId)
    | StartFinishes(k: StartId)
    | CloseRejected(k: StartId)
    | Stop(id: SessionId)
    | StopAll
    | ParentEnds

  /** `stopLocked`. */
  function StopLocked(s: State): State {
    s.(cancel := None, live := None, sessionId := "",
       cancelled := if s.cancel.Some? then s.cancelled + {s.cancel.value} else s.cancelled,
       closed := if s.live.Some? then s.closed + {s.live.value} else s.closed)
  }

  function SetPhase(s: State, k: StartId, p: Phase): map<StartId, Call>
    requires k in s.calls
  {
    s.calls[k := s.calls[k].(phase := p)]
  }

  predicate Enabled(s: State, a: Action) {
    match a
    case StartBegins(k, _) => k !in s.calls
    case BuildFails(k) => k in s.calls && s.calls[k].phase.Building?
    case BuildSucceeds(k) => k in s.calls && s.calls[k].phase.Building?
    case StartFinishes(k) => k in s.calls && s.calls[k].phase.Built?
    case CloseRejected(k) => k in s.calls && s.calls[k].phase.Rejected?
    case _ => true
  }

  function Step(s: State, a: Action): State
    requires Enabled(s, a)
  {
    match a
    case StartBegins(k, id) =>
      var t := StopLocked(s);
      t.(cancel := Some(k), sessionId := id, calls := t.calls[k := Call(id, Building)],
         cancelled := if t.parentDone then t.cancelled + {k} else t.cancelled)
    case BuildFails(k) => s.(calls := SetPhase(s, k, Failed), cancelled := s.cancelled + {k})
    case BuildSucceeds(k) => s.(calls := SetPhase(s, k, Built))
    case StartFinishes(k) =>
      if s.sessionId != s.calls[k].id then s.(calls := SetPhase(s, k, Rejected))
      else s.(live := Some(k), calls := SetPhase(s, k, Installed))
    case CloseRejected(k) => s.(calls := SetPhase(s, k, Discarded), closed := s.closed + {k})
    case Stop(id) => if s.sessionId == id then StopLocked(s) else s
    case StopAll => StopLocked(s)
    case ParentEnds => s.(parentDone := true, cancelled := s.cancelled + s.calls.Keys)
  }

  predicate ValidRun(s: State, run: seq<Action>)
    decreases |run|
  {
    run == [] || (Enabled(s, run[0]) && ValidRun(Step(s, run[0]), run[1..]))
  }

  function Exec(s: State, run: seq<Action>): State
    requires ValidRun(s, run)
    decreases |run|
  {
    if run == [] then s else Exec(Step(s, run[0]), run[1..])
  }

  /** Every Start of the run carries an id of its own, and not the empty one. */
  predicate DistinctIds(run: seq<Action>) {
    && (forall i :: 0 <= i < |run| && run[i].StartBegins? ==> run[i].id != "")
    && (forall i, j :: 0 <= i < j < |run| && run[i].StartBegins? && run[j].StartBegins? ==> run[i].id != run[j].id)
  }

  // ----- Invariant -----

  predicate WasBuilt(p: Phase) { p.Built? || p.Rejected? || p.Discarded? || p.Installed? }

  predicate Awaiting(p: Phase) { p.Built? || p.Rejected? }

  /** A built session is live, closed, or awaiting its Start's second phase: exactly one of the three. */
  predicate ExactlyOne(s: State, k: StartId)
    requires k in s.calls
  {
    && (s.live == Some(k) || k in s.closed || Awaiting(s.calls[k].phase))
    && !(s.live == Some(k) && k in s.closed)
    && !(s.live == Some(k) && Awaiting(s.calls[k].phase))
    && !(k in s.closed && Awaiting(s.calls[k].phase))
  }

  ghost predicate UniqueIds(s: State) {
    && (forall k :: k in s.calls ==> s.calls[k].id != "")
    && (forall j, k :: j in s.calls && k in s.calls && s.calls[j].id == s.calls[k].id ==> j == k)
  }

  ghost predicate NoneLost(s: State) {
    forall k :: k in s.calls && WasBuilt(s.calls[k].phase) ==> ExactlyOne(s, k)
  }

  ghost predicate Current(s: State) {
    && (s.cancel.Some? ==> s.cancel.value in s.calls && s.calls[s.cancel.value].id == s.sessionId)
    && (s.cancel.None? ==> s.sessionId == "" && s.live.None?)
    && (s.live.Some? ==> s.live == s.cancel && s.calls[s.cancel.value].phase.Installed?)
    && (s.cancel.Some? && s.calls[s.cancel.value].phase.Installed? ==> s.live == s.cancel)
    && (s.cancel.Some? ==> !s.calls[s.cancel.value].phase.Rejected? && !s.calls[s.cancel.value].phase.Discarded?)
    && (forall k :: k in s.calls && (s.cancel != Some(k) || s.calls[k].phase.Failed?) ==> k in s.cancelled)
    && (forall k :: k in s.closed ==> k in s.calls && WasBuilt(s.calls[k].phase))
    && (s.cancel.Some? && s.cancel.value in s.cancelled ==> s.calls[s.cancel.value].phase.Failed? || s.parentDone)
    && (forall k :: k in s.cancelled ==> k in s.calls)
    && (s.parentDone ==> forall k :: k in s.calls ==> k in s.cancelled)
  }

  ghost predicate Inv(s: State) { UniqueIds(s) && NoneLost(s) && Current(s) }

  /** The next Start brings an id no earlier one had. */
  ghost predicate FreshStart(s: State, a: Action) {
    a.StartBegins? ==> a.id != "" && forall k :: k in s.calls ==> s.calls[k].id != a.id
  }

  lemma StopLockedKeepsInv(s: State)
    requires Inv(s)
    ensures Inv(StopLocked(s))
  {
  }

  lemma BeginKeepsInv(s: State, a: Action)
    requires Inv(s) && a.StartBegins? && Enabled(s, a) && FreshStart(s, a)
    ensures Inv(Step(s, a))
  {
    StopLockedKeepsInv(s);
  }

  lemma InstallKeepsNoneLost(s: State, k: StartId)
    requires UniqueIds(s) && NoneLost(s) && Current(s) && Enabled(s, StartFinishes(k))
    ensures NoneLost(Step(s, StartFinishes(k)))
  {
    assert s.sessionId == s.calls[k].id ==> s.cancel == Some(k) && s.live.None?;
  }

  lemma InstallKeepsIds(s: State, k: StartId)
    requires UniqueIds(s) && Enabled(s, StartFinishes(k))
    ensures UniqueIds(Step(s, StartFinishes(k)))
  {
  }

  lemma InstallKeepsCurrent(s: State, k: StartId)
    requires UniqueIds(s) && Current(s) && Enabled(s, StartFinishes(k))
    ensures Current(Step(s, StartFinishes(k)))
  {
  }

  lemma CloseKeepsInv(s: State, k: StartId)
    requires Inv(s) && Enabled(s, CloseRejected(k))
    ensures Inv(Step(s, CloseRejected(k)))
  {
  }

  lemma FailureKeepsInv(s: State, k: StartId)
    requires Inv(s) && Enabled(s, BuildFails(k))
    ensures Inv(Step(s, BuildFails(k)))
  {
  }

  lemma SuccessKeepsInv(s: State, k: StartId)
    requires Inv(s) && Enabled(s, BuildSucceeds(k))
    ensures Inv(Step(s, BuildSucceeds(k)))
  {
  }

  lemma StepKeepsInv(s: State, a: Action)
    requires Inv(s) && Enabled(s, a) && FreshStart(s, a)
    ensures Inv(Step(s, a))
  {
    match a
    case StartBegins(_, _) => BeginKeepsInv(s, a);
    case StartFinishes(k) => InstallKeepsNoneLost(s, k); InstallKeepsIds(s, k); InstallKeepsCurrent(s, k);
    case CloseRejected(k) => CloseKeepsInv(s, k);
    case BuildFails(k) => FailureKeepsInv(s, k);
    case BuildSucceeds(k) => SuccessKeepsInv(s, k);
    case ParentEnds =>
    case _ => StopLockedKeepsInv(s);
  }

  /** The ids of the Starts made so far are those of the run. */
  ghost predicate IdsFrom(s: State, before: seq<Action>) {
    forall k :: k in s.calls ==> exists i :: 0 <= i < |before| && before[i].StartBegins? && before[i].id == s.calls[k].id
  }

  lemma IdsExtend(s: State, before: seq<Action>, a: Action)
    requires IdsFrom(s, before) && Enabled(s, a)
    ensures IdsFrom(Step(s, a), before + [a])
  {
    var s1, before1 := Step(s, a), before + [a];
    forall k | k in s1.calls
      ensures exists i :: 0 <= i < |before1| && before1[i].StartBegins? && before1[i].id == s1.calls[k].id
    {
      if k in s.calls {
        var i :| 0 <= i < |before| && before[i].StartBegins? && before[i].id == s.calls[k].id;
        assert before1[i] == before[i];
      } else {
        assert before1[|before|] == a;
      }
    }
  }

  lemma {:induction false} RunKeepsInv(s: State, before: seq<Action>, run: seq<Action>)
    requires Inv(s) && IdsFrom(s, before) && DistinctIds(before + run) && ValidRun(s, run)
    ensures Inv(Exec(s, run))
    decreases |run|
  {
    if run != [] {
      var a := run[0];
      assert before + [a] + run[1..] == before + run;
      assert (before + run)[|before|] == a;
      assert forall i :: 0 <= i < |before| ==> (before + run)[i] == before[i];
      StepKeepsInv(s, a);
      IdsExtend(s, before, a);
      RunKeepsInv(Step(s, a), before + [a], run[1..]);
    }
  }

  lemma Reachable(run: seq<Action>)
    requires ValidRun(IDLE, run) && DistinctIds(run)
    ensures Inv(Exec(IDLE, run))
  {
    assert [] + run == run;
    RunKeepsInv(IDLE, [], run);
  }

  // ----- What the manager promises -----

  /** In every interleaving of any callers, with distinct ids: each built session is exactly one of live, closed,
      or awaiting its Start's second phase; at most one is live, it carries the current id and its own context
      is not cancelled but with its parent; and every replaced or stopped Start has its context cancelled, even
      mid-build. */
  lemma OneSessionAtATime(run: seq<Action>, k: StartId)
    requires ValidRun(IDLE, run) && DistinctIds(run) && k in Exec(IDLE, run).calls
    ensures var s := Exec(IDLE, run);
            && (WasBuilt(s.calls[k].phase) ==> ExactlyOne(s, k))
            && (s.live == Some(k) ==> s.sessionId == s.calls[k].id && (k in s.cancelled ==> s.parentDone))
            && (s.sessionId != s.calls[k].id ==> k in s.cancelled)
            && (s.sessionId == s.calls[k].id <==> s.cancel == Some(k))
  {
    Reachable(run);
  }

  // ----- The same, told from the calls alone -----

  datatype Standing = Standing(k: StartId, id: SessionId)

  function NextStanding(a: Action, standing: Option<Standing>): Option<Standing> {
    match a
    case StartBegins(k, id) => Some(Standing(k, id))
    case Stop(id) => if standing.Some? && standing.value.id == id then None else standing
    case StopAll => None
    case _ => standing
  }

  /** The Start of a run that was neither replaced nor stopped after it, going by the calls made. */
  function LastStanding(run: seq<Action>, sofar: Option<Standing>): Option<Standing>
    decreases |run|
  {
    if run == [] then sofar else LastStanding(run[1..], NextStanding(run[0], sofar))
  }

  /** The fields are those of the Start that stands. */
  predicate Names(s: State, standing: Option<Standing>) {
    match standing
    case Some(t) => s.cancel == Some(t.k) && s.sessionId == t.id
    case None => s.cancel.None? && s.sessionId == ""
  }

  lemma {:induction false} FieldsNameTheStanding(s: State, run: seq<Action>, sofar: Option<Standing>)
    requires ValidRun(s, run) && Names(s, sofar)
    ensures Names(Exec(s, run), LastStanding(run, sofar))
    decreases |run|
  {
    if run != [] {
      FieldsNameTheStanding(Step(s, run[0]), run[1..], NextStanding(run[0], sofar));
    }
  }

  /** Begun, and its context ended in the run: its build failed, or the parent context ended. */
  predicate Ended(run: seq<Action>, k: StartId) { BuildFails(k) in run || ParentEnds in run }

  /** What the run has done with Start `k`, by the state it leaves. */
  ghost predicate Recorded(s: State, run: seq<Action>, k: StartId) {
    && (k in s.calls <==> exists id :: StartBegins(k, id) in run)
    && (s.parentDone <==> ParentEnds in run)
    && (k in s.calls ==>
          && (s.calls[k].phase.Failed? <==> BuildFails(k) in run)
          && (s.calls[k].phase.Building? || s.calls[k].phase.Built? || s.calls[k].phase.Failed? <==>
              StartFinishes(k) !in run)
          && (s.calls[k].phase.Rejected? ==> CloseRejected(k) !in run)
          && (s.calls[k].phase.Discarded? <==> CloseRejected(k) in run))
    && (k !in s.calls ==> BuildFails(k) !in run && StartFinishes(k) !in run && CloseRejected(k) !in run)
  }

  lemma StepIsRecorded(s: State, before: seq<Action>, a: Action, k: StartId)
    requires Recorded(s, before, k) && Enabled(s, a)
    ensures Recorded(Step(s, a), before + [a], k)
  {
    var after := before + [a];
    assert forall b :: b in after <==> b in before || b == a;
    if a.StartBegins? && a.k == k { assert StartBegins(k, a.id) in after; }
    if id :| StartBegins(k, id) in before { assert StartBegins(k, id) in after; }
  }

  lemma {:induction false} RunIsRecorded(s: State, before: seq<Action>, run: seq<Action>, k: StartId)
    requires Recorded(s, before, k) && ValidRun(s, run)
    ensures Recorded(Exec(s, run), before + run, k)
    decreases |run|
  {
    if run == [] {
      assert before + run == before;
    } else {
      StepIsRecorded(s, before, run[0], k);
      RunIsRecorded(Step(s, run[0]), before + [run[0]], run[1..], k);
      assert before + [run[0]] + run[1..] == before + run;
    }
  }

  /** The session of `k` is live exactly when `k` stands and has finished; its context is cancelled exactly when `k` does
      not stand, its build failed or the parent context has ended; and its session is closed exactly when `k` has
      finished and does not stand, once a refused one has been closed. */
  ghost predicate Follows(s: State, run: seq<Action>, t: Option<Standing>, k: StartId) {
    var stands, begun := t.Some? && t.value.k == k, exists id :: StartBegins(k, id) in run;
    && (s.live == Some(k) <==> stands && StartFinishes(k) in run)
    && (k in s.cancelled <==> begun && (!stands || Ended(run, k)))
    && (k in s.closed ==> StartFinishes(k) in run && !stands)
    && (StartFinishes(k) in run && !stands ==> k in s.closed || (k in s.calls && s.calls[k].phase.Rejected?))
  }

  /** For any callers, with distinct ids, from the calls alone: the manager's fields name the Start that stands, that is
      neither replaced nor stopped since it began, and nothing when none does; and every Start is as that says. */
  lemma ManagerFollowsItsCalls(run: seq<Action>, k: StartId)
    requires ValidRun(IDLE, run) && DistinctIds(run)
    ensures Names(Exec(IDLE, run), LastStanding(run, None))
    ensures Follows(Exec(IDLE, run), run, LastStanding(run, None), k)
  {
    hide Inv, Recorded;
    Reachable(run);
    FieldsNameTheStanding(IDLE, run, None);
    assert [] + run == run;
    RunIsRecorded(IDLE, [], run, k) by { NothingRecorded(k); }
    InvFollows(Exec(IDLE, run), run, LastStanding(run, None), k);
  }

  lemma NothingRecorded(k: StartId)
    ensures Recorded(IDLE, [], k)
  {
  }

  lemma InvFollows(s: State, run: seq<Action>, t: Option<Standing>, k: StartId)
    requires Inv(s) && Names(s, t) && Recorded(s, run, k)
    ensures Follows(s, run, t, k)
  {
    if k in s.calls && WasBuilt(s.calls[k].phase) { assert ExactlyOne(s, k); }
  }

  /** Signalling reaches the live session only under its own id, so what is left over from a replaced
      session is discarded. */
  function Matching(s: State, id: SessionId): Option<StartId> {
    if s.live.Some? && s.sessionId == id then s.live else None
  }

  lemma SignallingReachesItsOwnSession(run: seq<Action>, k: StartId)
    requires ValidRun(IDLE, run) && DistinctIds(run) && k in Exec(IDLE, run).calls
    ensures var s := Exec(IDLE, run);
            && (Matching(s, s.calls[k].id) == Some(k) <==> s.live == Some(k))
            && (Matching(s, s.calls[k].id) != Some(k) ==> Matching(s, s.calls[k].id) == None)
  {
    Reachable(run);
  }

  // ----- What any callers at all can rely on -----

  /** An install that overwrites another live session, which nobody will then close. */
  predicate Overwrites(s: State, a: Action)
    requires Enabled(s, a)
  {
    a.StartFinishes? && s.sessionId == s.calls[a.k].id && s.live.Some?
  }

  /** What NoneLost needs beside itself, and what every step keeps whatever the ids. */
  ghost predicate Sound(s: State) {
    && (s.live.Some? ==> s.live.value in s.calls && s.calls[s.live.value].phase.Installed?)
    && (forall k :: k in s.closed ==> k in s.calls && (s.calls[k].phase.Installed? || s.calls[k].phase.Discarded?))
  }

  /** Whatever the ids, a step loses a built session exactly when it installs over another. */
  lemma SessionLostIff(s: State, a: Action)
    requires NoneLost(s) && Sound(s) && Enabled(s, a)
    ensures NoneLost(Step(s, a)) <==> !Overwrites(s, a)
    ensures Sound(Step(s, a))
  {
    if Overwrites(s, a) {
      var k := s.live.value;
      assert !ExactlyOne(Step(s, a), k);
    }
  }

  lemma {:induction false} Extend(s: State, run: seq<Action>, a: Action) returns (r: seq<Action>)
    requires ValidRun(s, run) && Enabled(Exec(s, run), a)
    ensures r == run + [a] && ValidRun(s, r) && Exec(s, r) == Step(Exec(s, run), a)
    decreases |run|
  {
    r := run + [a];
    if run != [] {
      var rest := Extend(Step(s, run[0]), run[1..], a);
      assert r[1..] == rest;
    } else {
      assert r[1..] == [];
    }
  }

  /** Two goroutines that call Start with one id can make that happen: the first Start is stopped mid-build, and
      its session is installed under the second Start's id and then overwritten, live, closed and awaiting no
      more. A connection has one goroutine for Start and Stop and so cannot (see AgentConnection). */
  lemma ReusedIdLosesASession(id: SessionId) returns (r: seq<Action>)
    ensures ValidRun(IDLE, r)
    ensures var s := Exec(IDLE, r);
            s.live == Some(2) && 1 in s.calls && s.calls[1].phase.Installed? && 1 !in s.closed && 1 in s.cancelled
  {
    r := Extend(IDLE, [], StartBegins(1, id));
    r := Extend(IDLE, r, BuildSucceeds(1));
    r := Extend(IDLE, r, Stop(id));
    r := Extend(IDLE, r, StartBegins(2, id));
    r := Extend(IDLE, r, BuildSucceeds(2));
    r := Extend(IDLE, r, StartFinishes(1));
    r := Extend(IDLE, r, StartFinishes(2));
  }

  /** What is live is what the cancel function belongs to. */
  ghost predicate LiveIsCurrent(s: State) { s.live.Some? ==> s.live == s.cancel }

  /** A Start that was stopped or replaced finds its id current all the same. */
  predicate InstallsAfterStop(s: State, a: Action)
    requires Enabled(s, a)
  {
    a.StartFinishes? && s.cancel != Some(a.k) && s.sessionId == s.calls[a.k].id
  }

  /** Whatever the ids and callers, a session whose context is not the current one goes live exactly then. */
  lemma LiveIsCurrentIff(s: State, a: Action)
    requires LiveIsCurrent(s) && Enabled(s, a)
    ensures LiveIsCurrent(Step(s, a)) <==> !InstallsAfterStop(s, a)
  {
  }

  /** And an empty id would let a stopped Start install itself, the idle manager's id being empty too. A
      connection drops such a Start before it reaches the manager. */
  lemma EmptyIdInstallsAfterStop() returns (r: seq<Action>)
    ensures ValidRun(IDLE, r)
    ensures var s := Exec(IDLE, r); s.live == Some(1) && s.cancel == None && 1 in s.cancelled && !LiveIsCurrent(s)
  {
    r := Extend(IDLE, [], StartBegins(1, ""));
    r := Extend(IDLE, r, BuildSucceeds(1));
    r := Extend(IDLE, r, StopAll);
    r := Extend(IDLE, r, StartFinishes(1));
  }

  // ----- The manager, in place -----

  class Manager {
    var cancel: Option<StartId>
    var sessionId: SessionId
    var live: Option<StartId>

    // The goroutines, contexts and sessions the manager's fields refer to.
    var calls: map<StartId, Call>
    var cancelled: set<StartId>
    var closed: set<StartId>
    var parentDone: bool

    ghost function View(): State
      reads this
    {
      State(cancel, sessionId, live, calls, cancelled, closed, parentDone)
    }

    constructor ()
      ensures View() == IDLE
    {
      cancel, sessionId, live := None, "", None;
      calls, cancelled, closed, parentDone := map[], {}, {}, false;
    }

    /** `stopLocked`. */
    method StopCurrent()
      modifies this
      ensures View() == StopLocked(old(View()))
      ensures cancel.None? && live.None? && sessionId == "" && calls == old(calls)
      ensures cancelled == old(cancelled) + (if old(cancel).Some? then {old(cancel).value} else {})
      ensures closed == old(closed) + (if old(live).Some? then {old(live).value} else {})
    {
      if cancel.Some? {
        cancelled := cancelled + {cancel.value};
        cancel := None;
      }
      if live.Some? {
        closed := closed + {live.value};
        live := None;
      }
      sessionId := "";
    }

    /** `Start`, first critical section. */
    method Begin(k: StartId, id: SessionId)
      requires Enabled(View(), StartBegins(k, id))
      modifies this
      ensures View() == Step(old(View()), StartBegins(k, id))
    {
      StopCurrent();
      cancel := Some(k);
      sessionId := id;
      calls := calls[k := Call(id, Building)];
      if parentDone {
        cancelled := cancelled + {k};
      }
    }

    /** `Start`, second critical section: false if a stop or a replacement came in between. */
    method Install(k: StartId) returns (ok: bool)
      requires Enabled(View(), StartFinishes(k))
      modifies this
      ensures View() == Step(old(View()), StartFinishes(k))
      ensures ok <==> live == Some(k) && sessionId == calls[k].id
    {
      ok := sessionId == calls[k].id;
      if ok {
        live := Some(k);
      }
      calls := calls[k := calls[k].(phase := if ok then Installed else Rejected)];
      assert !ok ==> sessionId != calls[k].id;
    }

    /** `Start`, when the peer connection could not be built. */
    method AbandonBuild(k: StartId)
      requires Enabled(View(), BuildFails(k))
      modifies this
      ensures View() == Step(old(View()), BuildFails(k))
    {
      cancelled := cancelled + {k};
      calls := calls[k := calls[k].(phase := Failed)];
    }

    /** `Start`, after a refused install: the session built for nothing is closed. */
    method CloseBuilt(k: StartId)
      requires Enabled(View(), CloseRejected(k))
      modifies this
      ensures View() == Step(old(View()), CloseRejected(k))
    {
      closed := closed + {k};
      calls := calls[k := calls[k].(phase := Discarded)];
    }

    /** `Stop`: the session of this id is cancelled, closed and forgotten; a stale stop changes nothing. */
    method StopNamed(id: SessionId)
      modifies this
      ensures View() == Step(old(View()), Stop(id))
      ensures id == old(sessionId) ==> cancel.None? && live.None? && sessionId == ""
      ensures id == old(sessionId) && old(cancel).Some? ==> old(cancel).value in cancelled
      ensures id == old(sessionId) && old(live).Some? ==> old(live).value in closed
      ensures id != old(sessionId) ==> unchanged(this)
    {
      if sessionId == id {
        StopCurrent();
      }
    }

    method StopAllCaptures()
      modifies this
      ensures View() == Step(old(View()), StopAll)
    {
      StopCurrent();
    }

    /** Cancelling the parent context cancels every context derived from it. */
    method EndParent()
      modifies this
      ensures View() == Step(old(View()), ParentEnds)
    {
      parentDone := true;
      cancelled := cancelled + calls.Keys;
    }

    method MatchingSession(id: SessionId) returns (s: Option<StartId>)
      ensures s == Matching(View(), id)
    {
      s := if live.Some? && sessionId == id then live else None;
    }
  }
}
