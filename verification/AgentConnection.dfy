/** One connection of the agent to its server: the goroutine of `session`, which on its way out stops every
    capture and then ends the context, and the goroutine of `reader`, the only caller of the manager's Start and
    Stop, which ends the context on its own way out. They share the manager and the context and nothing else. */
module AgentConnection {
  import opened Basics
  import M = SessionManager

  type StartId = M.StartId

  /** `session` after it has launched the reader: in its loop, before its deferred StopAll, before its deferred
      end of the context, and returned. */
  datatype SessionPc = Running | Stopping | Ending | Returned

  datatype Message = StartSession(id: string) | StopSession(id: string)

  /** `reader`: about to read, with a message in hand, inside Start, before its deferred end of the context, and
      gone. */
  datatype ReaderPc = Reading | Handling(msg: Message) | InStart(k: StartId) | Leaving | Gone

  /** `late` are the Starts begun after the final StopAll, and `orphans` counts those begun after the end of the
      context. */
  datatype State = State(m: M.State, session: SessionPc, reader: ReaderPc, late: set<StartId>, orphans: nat)

  const START := State(M.IDLE, Running, Reading, {}, 0)

  datatype Action =
    | SessionLeaves
    | SessionStops
    | SessionEnds
    | OuterEnds  // the agent is shut down, or told to reconnect
    | Receive(msg: Message)
    | Begin(k: StartId)
    | Ignore
    | StopNamed
    | BuildFails
    | BuildSucceeds
    | Finish
    | CloseBuilt
    | ReaderLeaves
    | ReaderEnds

  predicate Enabled(s: State, a: Action) {
    match a
    case SessionLeaves => s.session.Running?
    case SessionStops => s.session.Stopping?
    case SessionEnds => s.session.Ending?
    case OuterEnds => true
    case Receive(_) => s.reader.Reading?
    case Begin(k) => s.reader.Handling? && s.reader.msg.StartSession? && s.reader.msg.id != "" && k !in s.m.calls
    case Ignore => s.reader.Handling? && s.reader.msg.StartSession? && s.reader.msg.id == ""
    case StopNamed => s.reader.Handling? && s.reader.msg.StopSession?
    case BuildFails => s.reader.InStart? && M.Enabled(s.m, M.BuildFails(s.reader.k))
    case BuildSucceeds => s.reader.InStart? && M.Enabled(s.m, M.BuildSucceeds(s.reader.k))
    case Finish => s.reader.InStart? && M.Enabled(s.m, M.StartFinishes(s.reader.k))
    case CloseBuilt => s.reader.InStart? && M.Enabled(s.m, M.CloseRejected(s.reader.k))
    case ReaderLeaves => s.reader.Reading?
    case ReaderEnds => s.reader.Leaving?
  }

  predicate Stopped(s: State) { s.session.Ending? || s.session.Returned? }

  function Step(s: State, a: Action): State
    requires Enabled(s, a)
  {
    match a
    case SessionLeaves => s.(session := Stopping)
    case SessionStops => s.(session := Ending, m := M.Step(s.m, M.StopAll))
    case SessionEnds => s.(session := Returned, m := M.Step(s.m, M.ParentEnds))
    case OuterEnds => s.(m := M.Step(s.m, M.ParentEnds))
    case Receive(msg) => s.(reader := Handling(msg))
    case Begin(k) =>
      s.(reader := InStart(k), m := M.Step(s.m, M.StartBegins(k, s.reader.msg.id)),
         late := if Stopped(s) then s.late + {k} else s.late,
         orphans := if s.m.parentDone then s.orphans + 1 else s.orphans)
    case Ignore => s.(reader := Reading)
    case StopNamed => s.(reader := Reading, m := M.Step(s.m, M.Stop(s.reader.msg.id)))
    case BuildFails => s.(reader := Reading, m := M.Step(s.m, M.BuildFails(s.reader.k)))
    case BuildSucceeds => s.(m := M.Step(s.m, M.BuildSucceeds(s.reader.k)))
    case Finish =>
      var m := M.Step(s.m, M.StartFinishes(s.reader.k));
      s.(m := m, reader := if m.calls[s.reader.k].phase.Rejected? then s.reader else Reading)
    case CloseBuilt => s.(reader := Reading, m := M.Step(s.m, M.CloseRejected(s.reader.k)))
    case ReaderLeaves => s.(reader := Leaving)
    case ReaderEnds => s.(reader := Gone, m := M.Step(s.m, M.ParentEnds))
  }

  predicate ValidRun(s: State, run: seq<Action>)
    decreases |run|
  {
    run == [] || (Enabled(s, run[0]) && ValidRun(Step(s, run[0]), run[1..]))
  }

  function Exec(s: State, run: seq<Action>): State
    requires ValidRun(s, run)
    decreases |run|
  {
    if run == [] then s else Exec(Step(s, run[0]), run[1..])
  }

  // ----- Invariant -----

  predicate InHand(s: State, k: StartId) { s.reader.InStart? && s.reader.k == k }

  predicate Underway(p: M.Phase) { p.Building? || p.Built? || p.Rejected? }

  /** The one Start under way is the reader's, and nothing is live meanwhile. */
  ghost predicate OneStart(s: State) {
    && (s.reader.InStart? ==> s.reader.k in s.m.calls && s.m.live.None?)
    && (s.reader.InStart? ==> s.m.cancel.None? || s.m.cancel.value == s.reader.k)
    && (s.reader.InStart? && s.m.calls[s.reader.k].phase.Rejected? ==> s.m.cancel.None?)
    && (forall k :: k in s.m.calls ==> (Underway(s.m.calls[k].phase) <==> InHand(s, k)))
  }

  /** The fields of the manager name the latest Start until it is stopped. */
  ghost predicate Fields(m: M.State) {
    && (forall k :: k in m.calls ==> m.calls[k].id != "")
    && (m.cancel.None? ==> m.sessionId == "" && m.live.None?)
    && (m.cancel.Some? ==> m.cancel.value in m.calls && m.calls[m.cancel.value].id == m.sessionId)
    && (m.live.Some? ==> m.live == m.cancel && m.calls[m.cancel.value].phase.Installed?)
    && (m.cancel.Some? && m.calls[m.cancel.value].phase.Installed? ==> m.live == m.cancel)
  }

  /** Every Start but the current one has its context cancelled, and every Start once the context has ended. */
  ghost predicate Contexts(m: M.State) {
    && (forall k :: k in m.calls && m.cancel != Some(k) ==> k in m.cancelled)
    && (forall k :: k in m.calls && m.parentDone ==> k in m.cancelled)
    && (forall k :: k in m.cancelled ==> k in m.calls)
    && (m.cancel.Some? && m.cancel.value in m.cancelled ==>
          m.calls[m.cancel.value].phase.Failed? || m.parentDone)
  }

  ghost predicate Endings(s: State) {
    && (s.session.Returned? || s.reader.Gone? ==> s.m.parentDone)
    && (forall k :: k in s.late ==> Stopped(s) && k in s.m.calls)
    && (Stopped(s) && s.m.cancel.Some? ==> s.m.cancel.value in s.late)
  }

  ghost predicate Inv(s: State) {
    OneStart(s) && Fields(s.m) && Contexts(s.m) && Endings(s) && M.NoneLost(s.m) && M.Sound(s.m)
  }

  /** The reader's Start never installs over another session, so none is ever lost. */
  lemma KeepsSessions(s: State, a: Action)
    requires OneStart(s) && M.NoneLost(s.m) && M.Sound(s.m) && Enabled(s, a)
    ensures M.NoneLost(Step(s, a).m) && M.Sound(Step(s, a).m)
  {
    match a
    case SessionStops => M.SessionLostIff(s.m, M.StopAll);
    case SessionEnds => M.SessionLostIff(s.m, M.ParentEnds);
    case OuterEnds => M.SessionLostIff(s.m, M.ParentEnds);
    case Begin(k) => M.SessionLostIff(s.m, M.StartBegins(k, s.reader.msg.id));
    case StopNamed => M.SessionLostIff(s.m, M.Stop(s.reader.msg.id));
    case BuildFails => M.SessionLostIff(s.m, M.BuildFails(s.reader.k));
    case BuildSucceeds => M.SessionLostIff(s.m, M.BuildSucceeds(s.reader.k));
    case Finish => M.SessionLostIff(s.m, M.StartFinishes(s.reader.k));
    case CloseBuilt => M.SessionLostIff(s.m, M.CloseRejected(s.reader.k));
    case ReaderEnds => M.SessionLostIff(s.m, M.ParentEnds);
    case _ =>
  }

  lemma KeepsOneStart(s: State, a: Action)
    requires OneStart(s) && Fields(s.m) && Enabled(s, a)
    ensures OneStart(Step(s, a))
  {
  }

  lemma KeepsFields(s: State, a: Action)
    requires OneStart(s) && Fields(s.m) && Enabled(s, a)
    ensures Fields(Step(s, a).m)
  {
  }

  lemma KeepsContexts(s: State, a: Action)
    requires OneStart(s) && Fields(s.m) && Contexts(s.m) && Enabled(s, a)
    ensures Contexts(Step(s, a).m)
  {
  }

  lemma KeepsEndings(s: State, a: Action)
    requires OneStart(s) && Endings(s) && Enabled(s, a)
    ensures Endings(Step(s, a))
  {
  }

  lemma StepKeepsInv(s: State, a: Action)
    requires Inv(s) && Enabled(s, a)
    ensures Inv(Step(s, a))
  {
    KeepsOneStart(s, a);
    KeepsFields(s, a);
    KeepsContexts(s, a);
    KeepsEndings(s, a);
    KeepsSessions(s, a);
  }

  lemma {:induction false} RunKeepsInv(s: State, run: seq<Action>)
    requires Inv(s) && ValidRun(s, run)
    ensures Inv(Exec(s, run))
    decreases |run|
  {
    if run != [] {
      StepKeepsInv(s, run[0]);
      RunKeepsInv(Step(s, run[0]), run[1..]);
    }
  }

  // ----- What a connection promises -----

  /** Whatever ids the server sends, repeated or empty, and whenever the connection goes down: each session built
      is exactly one of live, closed, or in the reader's hands; a live one carries the current id, and its
      context is not cancelled but with the connection's; every Start but the current one is cancelled, even
      mid-build. */
  lemma NoSessionIsLost(run: seq<Action>, k: StartId)
    requires ValidRun(START, run) && k in Exec(START, run).m.calls
    ensures var s := Exec(START, run);
            && (M.WasBuilt(s.m.calls[k].phase) ==> M.ExactlyOne(s.m, k))
            && (M.Awaiting(s.m.calls[k].phase) ==> InHand(s, k))
            && (s.m.live == Some(k) ==> s.m.sessionId == s.m.calls[k].id && (k in s.m.cancelled ==> s.m.parentDone))
            && (s.m.live.Some? && s.m.live != Some(k) ==> k in s.m.cancelled)
            && (s.m.sessionId == "" ==> k in s.m.cancelled && s.m.live.None?)
  {
    RunKeepsInv(START, run);
  }

  /** Once `session` has returned, every capture ever begun has its context cancelled. Once the reader is gone
      too, every session built is closed, but for one Start begun after the final StopAll. */
  lemma NothingOutlivesTheConnection(run: seq<Action>, k: StartId)
    requires ValidRun(START, run) && k in Exec(START, run).m.calls
    ensures var s := Exec(START, run);
            && (s.session.Returned? ==> k in s.m.cancelled)
            && (Stopped(s) && k !in s.late ==> k in s.m.cancelled && s.m.live != Some(k))
            && (Stopped(s) && s.reader.Gone? && M.WasBuilt(s.m.calls[k].phase) ==>
                  k in s.m.closed || (k in s.late && s.m.live == Some(k)))
  {
    RunKeepsInv(START, run);
  }

  /** Everything the connection built is closed in the end exactly when no session is live then. */
  lemma AllClosedIff(run: seq<Action>)
    requires ValidRun(START, run) && Stopped(Exec(START, run)) && Exec(START, run).reader.Gone?
    ensures var s := Exec(START, run);
            (forall k :: k in s.m.calls && M.WasBuilt(s.m.calls[k].phase) ==> k in s.m.closed) <==> s.m.live.None?
  {
    RunKeepsInv(START, run);
    var s := Exec(START, run);
    if s.m.live.Some? {
      var k := s.m.live.value;
      assert M.WasBuilt(s.m.calls[k].phase) && M.ExactlyOne(s.m, k);
    }
  }

  /** The reader installs a session after the final StopAll: its Start began only then. */
  predicate LateInstall(s: State, a: Action)
    requires Enabled(s, a)
  {
    Stopped(s) && a.Finish? && s.m.sessionId == s.m.calls[s.reader.k].id
  }

  ghost predicate NoneLiveOnceStopped(s: State) { Stopped(s) ==> s.m.live.None? }

  /** After the final StopAll nothing is live until such an install, and no other step makes anything live. */
  lemma NoneLiveIff(s: State, a: Action)
    requires Inv(s) && NoneLiveOnceStopped(s) && Enabled(s, a)
    ensures NoneLiveOnceStopped(Step(s, a)) <==> !LateInstall(s, a)
  {
  }

  predicate NeverInstallsLate(s: State, run: seq<Action>)
    requires ValidRun(s, run)
    decreases |run|
  {
    run == [] || (!LateInstall(s, run[0]) && NeverInstallsLate(Step(s, run[0]), run[1..]))
  }

  lemma {:induction false} RunClosesAll(s: State, run: seq<Action>)
    requires Inv(s) && NoneLiveOnceStopped(s) && ValidRun(s, run) && NeverInstallsLate(s, run)
    ensures NoneLiveOnceStopped(Exec(s, run))
    decreases |run|
  {
    if run != [] {
      NoneLiveIff(s, run[0]);
      StepKeepsInv(s, run[0]);
      RunClosesAll(Step(s, run[0]), run[1..]);
    }
  }

  /** So a connection that installs nothing late leaves nothing open. */
  lemma NothingLateNothingOpen(run: seq<Action>, k: StartId)
    requires ValidRun(START, run) && NeverInstallsLate(START, run)
    requires Stopped(Exec(START, run)) && Exec(START, run).reader.Gone?
    requires k in Exec(START, run).m.calls && M.WasBuilt(Exec(START, run).m.calls[k].phase)
    ensures k in Exec(START, run).m.closed
  {
    RunKeepsInv(START, run);
    RunClosesAll(START, run);
    AllClosedIff(run);
  }

  /** A Start that is over for good: cancelled, not live, and nobody's to install any more. */
  ghost predicate IsOver(s: State, k: StartId) {
    k in s.m.calls && k in s.m.cancelled && s.m.live != Some(k) && s.m.cancel != Some(k) && !InHand(s, k)
  }

  lemma {:induction false} OverForEver(s: State, run: seq<Action>, k: StartId)
    requires IsOver(s, k) && ValidRun(s, run)
    ensures IsOver(Exec(s, run), k)
    decreases |run|
  {
    if run != [] {
      assert IsOver(Step(s, run[0]), k);
      OverForEver(Step(s, run[0]), run[1..], k);
    }
  }

  /** Once the reader has handled a stop of an id, every Start made under it is cancelled, none is live then or ever
      again, and what they built is closed. */
  lemma StopEndsItsSession(before: seq<Action>, id: string, k: StartId, more: seq<Action>)
    requires ValidRun(START, before) && Exec(START, before).reader == Handling(StopSession(id))
    requires k in Exec(START, before).m.calls && Exec(START, before).m.calls[k].id == id
    requires ValidRun(Step(Exec(START, before), StopNamed), more)
    ensures var s := Exec(Step(Exec(START, before), StopNamed), more);
            && k in s.m.cancelled && s.m.live != Some(k) && k in s.m.calls
            && (M.WasBuilt(s.m.calls[k].phase) ==> k in s.m.closed)
  {
    var s := Exec(START, before);
    RunKeepsInv(START, before);
    StepKeepsInv(s, StopNamed);
    OverForEver(Step(s, StopNamed), more, k);
    RunKeepsInv(Step(s, StopNamed), more);
    var z := Exec(Step(s, StopNamed), more);
    if M.WasBuilt(z.m.calls[k].phase) { assert M.ExactlyOne(z.m, k); }
  }

  /** A stop of an id that is not the current one touches no Start at all. */
  lemma StaleStopIsIgnored(s: State, id: string)
    requires s.reader == Handling(StopSession(id)) && id != s.m.sessionId
    ensures Step(s, StopNamed).m == s.m
  {
  }

  /** A read fails once its context has ended, as the websocket library promises. */
  predicate ReadsHonourContext(s: State, run: seq<Action>)
    requires ValidRun(s, run)
    decreases |run|
  {
    run == [] || (!(run[0].Receive? && s.m.parentDone) && ReadsHonourContext(Step(s, run[0]), run[1..]))
  }

  predicate FewOrphans(s: State) {
    s.orphans + (if s.m.parentDone && s.reader.Handling? then 1 else 0) <= if s.m.parentDone then 1 else 0
  }

  lemma {:induction false} RunKeepsFewOrphans(s: State, run: seq<Action>)
    requires ValidRun(s, run) && ReadsHonourContext(s, run) && FewOrphans(s)
    ensures FewOrphans(Exec(s, run))
    decreases |run|
  {
    if run != [] {
      assert FewOrphans(Step(s, run[0]));
      RunKeepsFewOrphans(Step(s, run[0]), run[1..]);
    }
  }

  /** The Starts of a run that begin after the context has ended. */
  function OrphansOf(s: State, run: seq<Action>): nat
    requires ValidRun(s, run)
    decreases |run|
  {
    if run == [] then 0
    else (if run[0].Begin? && s.m.parentDone then 1 else 0) + OrphansOf(Step(s, run[0]), run[1..])
  }

  lemma {:induction false} OrphansAreCounted(s: State, run: seq<Action>)
    requires ValidRun(s, run)
    ensures Exec(s, run).orphans == s.orphans + OrphansOf(s, run)
    decreases |run|
  {
    if run != [] { OrphansAreCounted(Step(s, run[0]), run[1..]); }
  }

  /** At most one Start begins after the connection's context has ended: of a message already read. */
  lemma AtMostOneOrphan(run: seq<Action>)
    requires ValidRun(START, run) && ReadsHonourContext(START, run)
    ensures OrphansOf(START, run) <= 1
  {
    RunKeepsFewOrphans(START, run);
    OrphansAreCounted(START, run);
  }

  /** How many steps the reader is from gone once reads fail. */
  function ReaderLeft(s: State): nat {
    match s.reader
    case Handling(_) => 6
    case InStart(k) =>
      if k in s.m.calls && s.m.calls[k].phase.Building? then 5
      else if k in s.m.calls && s.m.calls[k].phase.Built? then 4 else 3
    case Reading => 2
    case Leaving => 1
    case Gone => 0
  }

  predicate OfReader(a: Action) {
    !a.SessionLeaves? && !a.SessionStops? && !a.SessionEnds? && !a.OuterEnds?
  }

  function ReaderSteps(run: seq<Action>): nat
    decreases |run|
  {
    if run == [] then 0 else (if OfReader(run[0]) then 1 else 0) + ReaderSteps(run[1..])
  }

  ghost predicate ReaderBlocked(s: State) { forall a :: OfReader(a) && !a.Receive? ==> !Enabled(s, a) }

  lemma {:induction false} ReaderWindsDown(s: State, run: seq<Action>)
    requires Inv(s) && s.m.parentDone && ValidRun(s, run) && ReadsHonourContext(s, run)
    ensures Exec(s, run).m.parentDone && ReaderSteps(run) + ReaderLeft(Exec(s, run)) <= ReaderLeft(s)
    decreases |run|
  {
    if run != [] {
      StepKeepsInv(s, run[0]);
      assert ReaderLeft(Step(s, run[0])) + (if OfReader(run[0]) then 1 else 0) <= ReaderLeft(s);
      ReaderWindsDown(Step(s, run[0]), run[1..]);
    }
  }

  lemma SomeId(calls: set<StartId>) returns (k: StartId)
    ensures k !in calls
  {
    k := 0;
    var rest := calls;
    while rest != {}
      invariant rest <= calls && forall j :: j in calls && j !in rest ==> j < k
      decreases rest
    {
      var j :| j in rest;
      rest := rest - {j};
      k := if j < k then k else j + 1;
    }
  }

  lemma ReaderIsNotStuck(s: State)
    requires OneStart(s)
    ensures ReaderBlocked(s) <==> s.reader.Gone?
  {
    match s.reader
    case Reading => assert Enabled(s, ReaderLeaves);
    case Handling(msg) =>
      if msg.StopSession? {
        assert Enabled(s, StopNamed);
      } else if msg.id == "" {
        assert Enabled(s, Ignore);
      } else {
        var k := SomeId(s.m.calls.Keys);
        assert Enabled(s, Begin(k));
      }
    case InStart(k) =>
      assert Enabled(s, BuildSucceeds) || Enabled(s, Finish) || Enabled(s, CloseBuilt);
    case Leaving => assert Enabled(s, ReaderEnds);
    case Gone =>
  }

  /** After the end of the context the reader is never stuck and is gone within six of its own steps. */
  lemma ReaderAlwaysEnds(run: seq<Action>, more: seq<Action>)
    requires ValidRun(START, run) && Exec(START, run).m.parentDone
    requires ValidRun(Exec(START, run), more) && ReadsHonourContext(Exec(START, run), more)
    ensures var s := Exec(Exec(START, run), more);
            ReaderSteps(more) <= 6 && (ReaderBlocked(s) <==> s.reader.Gone?)
  {
    RunKeepsInv(START, run);
    ReaderWindsDown(Exec(START, run), more);
    RunKeepsInv(Exec(START, run), more);
    ReaderIsNotStuck(Exec(Exec(START, run), more));
  }

  lemma {:induction false} Extend(s: State, run: seq<Action>, a: Action) returns (r: seq<Action>)
    requires ValidRun(s, run) && Enabled(Exec(s, run), a)
    ensures r == run + [a] && ValidRun(s, r) && Exec(s, r) == Step(Exec(s, run), a)
    decreases |run|
  {
    r := run + [a];
    if run != [] {
      var rest := Extend(Step(s, run[0]), run[1..], a);
      assert r[1..] == rest;
    } else {
      assert r[1..] == [];
    }
  }

  /** The reader takes a Start, builds its session and installs it. */
  lemma StartLap(run: seq<Action>, k: StartId, id: string) returns (r: seq<Action>)
    requires ValidRun(START, run) && id != ""
    requires Exec(START, run).reader.Reading? && k !in Exec(START, run).m.calls
    ensures ValidRun(START, r)
    ensures var s, s' := Exec(START, run), Exec(START, r);
            && s'.session == s.session && s'.reader.Reading? && s'.m.parentDone == s.m.parentDone
            && s'.late == (if Stopped(s) then s.late + {k} else s.late)
            && s'.m.live == Some(k) && s'.m.calls == s.m.calls[k := M.Call(id, M.Installed)]
            && s'.m.closed == (if s.m.live.Some? then s.m.closed + {s.m.live.value} else s.m.closed)
  {
    r := Extend(START, run, Receive(StartSession(id)));
    r := Extend(START, r, Begin(k));
    r := Extend(START, r, BuildSucceeds);
    r := Extend(START, r, Finish);
  }

  /** Between StopAll and the end of the context the reader may still take messages: more than one Start can be
      late, and the last of them be live when StopAll is over. */
  lemma LateStartsHappen(id: string) returns (r: seq<Action>)
    requires id != ""
    ensures ValidRun(START, r)
    ensures var s := Exec(START, r);
            s.late == {1, 2} && s.m.live == Some(2) && 1 in s.m.closed && !s.m.parentDone
  {
    r := Extend(START, [], SessionLeaves);
    r := Extend(START, r, SessionStops);
    r := StartLap(r, 1, id);
    r := StartLap(r, 2, id);
  }

  // ----- The connection, in place -----

  class Connection {
    const capture: M.Manager
    var sessionPc: SessionPc
    var readerPc: ReaderPc
    ghost var late: set<StartId>
    ghost var orphans: nat

    ghost function View(): State
      reads this, capture
    {
      State(capture.View(), sessionPc, readerPc, late, orphans)
    }

    constructor ()
      ensures View() == START && Inv(View()) && fresh(capture)
    {
      capture := new M.Manager();
      sessionPc, readerPc, late, orphans := Running, Reading, {}, 0;
    }

    /** `session` leaving its loop and then running its deferred calls, one at a time. */
    method SessionStep()
      requires Inv(View()) && !sessionPc.Returned?
      modifies this, capture
      ensures View() == Step(old(View()), match old(sessionPc)
                                          case Running => SessionLeaves
                                          case Stopping => SessionStops
                                          case _ => SessionEnds) && Inv(View())
    {
      match sessionPc
      case Running =>
        StepKeepsInv(View(), SessionLeaves);
        sessionPc := Stopping;
      case Stopping =>
        StepKeepsInv(View(), SessionStops);
        capture.StopAllCaptures();
        sessionPc := Ending;
      case Ending =>
        StepKeepsInv(View(), SessionEnds);
        capture.EndParent();
        sessionPc := Returned;
    }

    /** `reader` handling the message it has read; `k` numbers the Start, if it is one. */
    method Dispatch(k: StartId) returns (a: Action)
      requires Inv(View()) && readerPc.Handling? && k !in capture.calls
      modifies this, capture
      ensures Enabled(old(View()), a) && View() == Step(old(View()), a) && Inv(View())
      ensures readerPc.InStart? <==> old(readerPc).msg.StartSession? && old(readerPc).msg.id != ""
    {
      match readerPc.msg
      case StartSession(id) =>
        a := if id != "" then Begin(k) else Ignore;
        StepKeepsInv(View(), a);
        if id != "" {
          if sessionPc.Ending? || sessionPc.Returned? {
            late := late + {k};
          }
          if capture.parentDone {
            orphans := orphans + 1;
          }
          capture.Begin(k, id);
          readerPc := InStart(k);
        } else {
          readerPc := Reading;
        }
      case StopSession(id) =>
        a := StopNamed;
        StepKeepsInv(View(), a);
        capture.StopNamed(id);
        readerPc := Reading;
    }

    /** `Start` once its build is over: its second critical section, and the close if that refused. */
    method CompleteStart() returns (live: bool)
      requires Inv(View()) && Enabled(View(), Finish)
      modifies this, capture
      ensures Inv(View()) && readerPc.Reading? && live == (capture.live == Some(old(readerPc).k))
      ensures live ==> View() == Step(old(View()), Finish)
      ensures !live ==> Enabled(Step(old(View()), Finish), CloseBuilt)
      ensures !live ==> View() == Step(Step(old(View()), Finish), CloseBuilt)
    {
      var k := readerPc.k;
      StepKeepsInv(View(), Finish);
      live := capture.Install(k);
      if live {
        readerPc := Reading;
      } else {
        StepKeepsInv(View(), CloseBuilt);
        capture.CloseBuilt(k);
        readerPc := Reading;
      }
    }

    /** `reader` on its way out. */
    method LeaveReader()
      requires Inv(View()) && readerPc.Leaving?
      modifies this, capture
      ensures View() == Step(old(View()), ReaderEnds) && Inv(View())
    {
      StepKeepsInv(View(), ReaderEnds);
      capture.EndParent();
      readerPc := Gone;
    }
  }
}
