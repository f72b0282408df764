/** Which operator the hub routes a device's frames to, and what becomes of an operator, told from the steps of a run
    alone. */
module HubOperators {
  import opened Basics
  import opened Counting
  import opened Presence
  import opened Hub
  import opened HubProperties

  // ----- The viewers map -----

  /** The operator registered last for `d` in a run, going by its steps. */
  function LastRegistered(s: State, run: seq<Action>, d: DeviceId, sofar: Option<SessionId>): Option<SessionId>
    requires ValidRun(s, run)
    decreases |run|
  {
    if run == [] then sofar
    else
      LastRegistered(Step(s, run[0]), run[1..], d,
                     if run[0].ViewerRegisters? && s.people[run[0].v].device == d then Some(run[0].v) else sofar)
  }

  predicate IsRemoved(s: State, v: SessionId) {
    v in s.people && (s.people[v].end.Releasing? || s.people[v].end.Released?)
  }

  lemma {:induction false} RemovedIsInRun(s: State, run: seq<Action>, v: SessionId)
    requires ValidRun(s, run)
    ensures IsRemoved(Exec(s, run), v) <==> IsRemoved(s, v) || EndRemoves(v) in run
    decreases |run|
  {
    if run != [] {
      var next := Step(s, run[0]);
      assert IsRemoved(next, v) <==> IsRemoved(s, v) || run[0] == EndRemoves(v) by { RemovedByItself(s, run[0], v); }
      RemovedIsInRun(next, run[1..], v);
      assert run == [run[0]] + run[1..];
    }
  }

  lemma RemovedByItself(s: State, a: Action, v: SessionId)
    requires Enabled(s, a)
    ensures IsRemoved(Step(s, a), v) <==> IsRemoved(s, v) || a == EndRemoves(v)
  {
  }

  /** The entry of `d` is `latest` until that operator is removed. */
  ghost predicate Routes(s: State, d: DeviceId, latest: Option<SessionId>) {
    && (latest.Some? ==> latest.value in s.people && s.people[latest.value].device == d && Registered(s.people[latest.value]))
    && Lookup(s.watched, d) == if latest.Some? && !IsRemoved(s, latest.value) then latest else None
  }

  lemma AgentKeepsRoutes(s: State, a: Action, d: DeviceId, latest: Option<SessionId>)
    requires Routes(s, d, latest) && LeavingSettled(s) && Enabled(s, a) && OfAgent(a)
    ensures Routes(Step(s, a), d, latest)
  {
  }

  lemma OperatorKeepsRoutes(s: State, a: Action, d: DeviceId, latest: Option<SessionId>)
    requires Routes(s, d, latest) && Lifecycles(s) && Enabled(s, a) && !OfAgent(a)
    ensures Routes(Step(s, a), d, if a.ViewerRegisters? && s.people[a.v].device == d then Some(a.v) else latest)
  {
  }

  lemma {:induction false} RunKeepsRoutes(s: State, run: seq<Action>, d: DeviceId, latest: Option<SessionId>)
    requires Inv(s) && Routes(s, d, latest) && ValidRun(s, run)
    ensures Routes(Exec(s, run), d, LastRegistered(s, run, d, latest))
    decreases |run|
  {
    if run != [] {
      var a := run[0];
      StepKeepsInv(s, a);
      if OfAgent(a) { AgentKeepsRoutes(s, a, d, latest); } else { OperatorKeepsRoutes(s, a, d, latest); }
      RunKeepsRoutes(Step(s, a), run[1..], d,
                     if a.ViewerRegisters? && s.people[a.v].device == d then Some(a.v) else latest);
    }
  }

  /** `viewers[d]` is the most recently registered operator of `d` until its own teardown removes it, and absent from
      then on: no late teardown ever removes a newer operator. */
  lemma ViewersNameTheLatest(run: seq<Action>, d: DeviceId)
    requires ValidRun(START, run)
    ensures var latest := LastRegistered(START, run, d, None);
            Lookup(Exec(START, run).watched, d) ==
              if latest.Some? && EndRemoves(latest.value) !in run then latest else None
  {
    RunKeepsRoutes(START, run, d, None);
    var latest := LastRegistered(START, run, d, None);
    if latest.Some? { RemovedIsInRun(START, run, latest.value); }
  }

  // ----- An agent that goes ends its operator -----

  /** Connection `c` still has to end `v`, or has done it. */
  ghost predicate Answers(s: State, c: ConnId, v: SessionId) {
    && c in s.conns && v in s.people
    && (s.conns[c].phase == Leaving(Some(v)) ||
        ((s.conns[c].phase.Departing? || s.conns[c].phase.Gone?) && s.people[v].end.Released?))
  }

  lemma StepKeepsAnswers(s: State, a: Action, c: ConnId, v: SessionId)
    requires Answers(s, c, v) && Enabled(s, a)
    ensures Answers(Step(s, a), c, v)
  {
  }

  lemma {:induction false} RunKeepsAnswers(s: State, run: seq<Action>, c: ConnId, v: SessionId)
    requires Answers(s, c, v) && ValidRun(s, run)
    ensures Answers(Exec(s, run), c, v)
    decreases |run|
  {
    if run != [] {
      StepKeepsAnswers(s, run[0], c, v);
      RunKeepsAnswers(Step(s, run[0]), run[1..], c, v);
    }
  }

  /** The operator a connection finds on leaving, the one registered last and not yet removed, is over before the
      connection goes offline: released, and in neither the registry nor the claims. */
  lemma LeavingAgentEndsItsOperator(before: seq<Action>, c: ConnId, more: seq<Action>, v: SessionId)
    requires ValidRun(START, before) && Enabled(Exec(START, before), AgentLeaves(c))
    requires LastRegistered(START, before, Exec(START, before).conns[c].device, None) == Some(v)
    requires EndRemoves(v) !in before && ValidRun(Step(Exec(START, before), AgentLeaves(c)), more)
    requires var z := Exec(Step(Exec(START, before), AgentLeaves(c)), more);
             c in z.conns && (z.conns[c].phase.Departing? || z.conns[c].phase.Gone?)
    ensures var z := Exec(Step(Exec(START, before), AgentLeaves(c)), more);
            && Times(z.released, v) == 1 && v !in z.store.sessions
            && forall d :: d in z.store.deviceSess ==> z.store.deviceSess[d] != v
  {
    var s := Exec(START, before);
    var next := Step(s, AgentLeaves(c));
    Reachable(before);
    ViewersNameTheLatest(before, s.conns[c].device);
    StepKeepsInv(s, AgentLeaves(c));
    RunKeepsAnswers(next, more, c, v);
    RunKeepsInv(next, more);
    EndedForEver(Exec(next, more), v, []);
  }

  // ----- Who may watch -----

  /** The state after the first `n` steps of a run. */
  function At(s: State, run: seq<Action>, n: nat): State
    requires ValidRun(s, run) && n <= |run|
    decreases n
  {
    if n == 0 then s else At(Step(s, run[0]), run[1..], n - 1)
  }

  /** The operator's claim was decided: refused for good, or admitted for good. */
  predicate Decided(s: State, v: SessionId, admitted: bool) {
    v in s.people && !s.people[v].phase.Opening? && (admitted <==> !s.people[v].phase.Refused?)
  }

  lemma {:induction false} DecisionStays(s: State, run: seq<Action>, v: SessionId, admitted: bool)
    requires Decided(s, v, admitted) && ValidRun(s, run)
    ensures Decided(Exec(s, run), v, admitted)
    decreases |run|
  {
    if run != [] {
      assert Decided(Step(s, run[0]), v, admitted);
      DecisionStays(Step(s, run[0]), run[1..], v, admitted);
    }
  }

  /** An operator's claim is refused, for the rest of the run, exactly when somebody holds the device at that moment;
      otherwise it holds the device then. */
  lemma {:induction false} ClaimDecides(s: State, run: seq<Action>, i: nat)
    requires ValidRun(s, run) && i < |run| && run[i].ViewerClaims?
    ensures var v := run[i].v;
            && v in At(s, run, i).people && v in Exec(s, run).people
            && var d := At(s, run, i).people[v].device;
            && (Exec(s, run).people[v].phase.Refused? <==> d in At(s, run, i).store.deviceSess)
            && (d !in At(s, run, i).store.deviceSess ==> Lookup(At(s, run, i + 1).store.deviceSess, d) == Some(v))
    decreases i
  {
    if i == 0 {
      var v := run[0].v;
      assert At(s, run, 1) == Step(s, run[0]);
      DecisionStays(Step(s, run[0]), run[1..], v, s.people[v].device !in s.store.deviceSess);
    } else {
      ClaimDecides(Step(s, run[0]), run[1..], i - 1);
    }
  }

  /** The operator claimed at some step. */
  ghost predicate HasClaimed(run: seq<Action>, v: SessionId) {
    exists i :: 0 <= i < |run| && run[i].ViewerClaims? && run[i].v == v
  }

  lemma {:induction false} ClaimedBefore(s: State, run: seq<Action>, v: SessionId)
    requires ValidRun(s, run) && v in Exec(s, run).people && !Exec(s, run).people[v].phase.Opening?
    requires v in s.people ==> s.people[v].phase.Opening?
    ensures HasClaimed(run, v)
    decreases |run|
  {
    if run != [] {
      if !(run[0].ViewerClaims? && run[0].v == v) {
        ClaimedBefore(Step(s, run[0]), run[1..], v);
        var i :| 0 <= i < |run[1..]| && run[1..][i].ViewerClaims? && run[1..][i].v == v;
        assert run[i + 1] == run[1..][i];
      }
    }
  }

  /** Nobody watches without a claim: every operator the hub has registered claimed its device when nobody held it. */
  lemma OnlyAdmittedOperatorsWatch(run: seq<Action>, v: SessionId) returns (i: nat)
    requires ValidRun(START, run) && v in Exec(START, run).people && Registered(Exec(START, run).people[v])
    ensures i < |run| && run[i].ViewerClaims? && run[i].v == v && v in At(START, run, i).people
    ensures var d := At(START, run, i).people[v].device;
            d !in At(START, run, i).store.deviceSess && Lookup(At(START, run, i + 1).store.deviceSess, d) == Some(v)
  {
    ClaimedBefore(START, run, v);
    i :| 0 <= i < |run| && run[i].ViewerClaims? && run[i].v == v;
    ClaimDecides(START, run, i);
  }
}
