/** Remote ICE candidates that arrive before the remote description: one specification, met by the agent
    (Go, lock sections on several goroutines) and by the browser (steps between awaits). Candidates are
    numbered in the order their handlers are entered; empty ones are ignored before that and have no number. */
module TrickleIce {
  import opened Counting

  type Cand = nat

  lemma Moved(q: seq<Cand>, c: Cand)
    requires q != []
    ensures Times(q, c) == Times([q[0]], c) + Times(q[1..], c)
  {
  }

  /** Every arrived candidate has been applied once, or is held once: never both, never neither, never twice. */
  ghost predicate ExactlyOnce(arrived: nat, applied: seq<Cand>, held: seq<Cand>) {
    forall c: Cand :: Times(applied, c) + Times(held, c) == if c < arrived then 1 else 0
  }

  lemma UpToNext(n: nat)
    ensures UpTo(n + 1) == UpTo(n) + [n]
  {
  }
}

/** `vp8Session.HandleAnswer` and `HandleICECandidate`, called from any number of goroutines. */
module AgentIce {
  import opened Counting
  import opened TrickleIce

  /** The one call of HandleAnswer: `Described` has set the remote description, `Flushing` has left the lock. */
  datatype AnswerPc = NoAnswer | Described | Flushing | Answered | Refused

  /** `entered` are the candidate handlers before their lock section, `passing` those that found the answer
      set and are about to apply; `flush` is what HandleAnswer took from `pending` and still has to apply. */
  datatype State = State(
    described: bool, remoteSet: bool, pending: seq<Cand>,
    answer: AnswerPc, flush: seq<Cand>, entered: seq<Cand>, passing: seq<Cand>,
    arrived: nat, applied: seq<Cand>)

  const START := State(false, false, [], NoAnswer, [], [], [], 0, [])

  datatype Action = Arrive | Lock(i: nat) | Apply(i: nat) | SetAnswer(ok: bool) | TakePending | FlushOne | FlushEnd

  function Without(q: seq<Cand>, i: nat): seq<Cand>
    requires i < |q|
  {
    q[..i] + q[i + 1..]
  }

  predicate Enabled(s: State, a: Action) {
    match a
    case Arrive => true
    case Lock(i) => i < |s.entered|
    case Apply(i) => i < |s.passing|
    case SetAnswer(_) => s.answer.NoAnswer?
    case TakePending => s.answer.Described?
    case FlushOne => s.answer.Flushing? && s.flush != []
    case FlushEnd => s.answer.Flushing? && s.flush == []
  }

  function Step(s: State, a: Action): State
    requires Enabled(s, a)
  {
    match a
    case Arrive => s.(entered := s.entered + [s.arrived], arrived := s.arrived + 1)
    case Lock(i) =>
      if !s.remoteSet then s.(entered := Without(s.entered, i), pending := s.pending + [s.entered[i]])
      else s.(entered := Without(s.entered, i), passing := s.passing + [s.entered[i]])
    case Apply(i) => s.(passing := Without(s.passing, i), applied := s.applied + [s.passing[i]])
    case SetAnswer(ok) => if ok then s.(described := true, answer := Described) else s.(answer := Refused)
    case TakePending => s.(remoteSet := true, flush := s.pending, pending := [], answer := Flushing)
    case FlushOne => s.(applied := s.applied + [s.flush[0]], flush := s.flush[1..])
    case FlushEnd => s.(answer := Answered)
  }

  predicate ValidRun(s: State, run: seq<Action>)
    decreases |run|
  {
    run == [] || (Enabled(s, run[0]) && ValidRun(Step(s, run[0]), run[1..]))
  }

  function Exec(s: State, run: seq<Action>): State
    requires ValidRun(s, run)
    decreases |run|
  {
    if run == [] then s else Exec(Step(s, run[0]), run[1..])
  }

  /** Everything that has arrived and not been applied. */
  function Held(s: State): seq<Cand> { s.flush + s.passing + s.pending + s.entered }

  ghost function Count(s: State, c: Cand): nat {
    Times(s.applied, c) + Times(s.flush, c) + Times(s.passing, c) + Times(s.pending, c) + Times(s.entered, c)
  }

  ghost predicate Inv(s: State) {
    && (forall c: Cand :: Count(s, c) == if c < s.arrived then 1 else 0)
    && (s.remoteSet <==> s.answer.Flushing? || s.answer.Answered?)
    && (s.described <==> s.remoteSet || s.answer.Described?)
    && (s.remoteSet ==> s.pending == [])
    && (!s.answer.Flushing? ==> s.flush == [])
    && (!s.remoteSet ==> s.applied == [] && s.passing == [])
  }

  lemma TimesWithout(q: seq<Cand>, i: nat, c: Cand)
    requires i < |q|
    ensures Times(q, c) == Times(Without(q, i), c) + Times([q[i]], c)
  {
    assert q == q[..i] + ([q[i]] + q[i + 1..]);
    TimesJoin(q[..i], [q[i]] + q[i + 1..], c);
    TimesJoin([q[i]], q[i + 1..], c);
    TimesJoin(q[..i], q[i + 1..], c);
  }

  lemma StepCounts(s: State, a: Action, c: Cand)
    requires Inv(s) && Enabled(s, a)
    ensures Count(Step(s, a), c) == Count(s, c) + (if a.Arrive? && c == s.arrived then 1 else 0)
  {
    match a
    case Arrive => TimesJoin(s.entered, [s.arrived], c);
    case Lock(i) =>
      TimesWithout(s.entered, i, c);
      TimesJoin(s.pending, [s.entered[i]], c);
      TimesJoin(s.passing, [s.entered[i]], c);
    case Apply(i) =>
      TimesWithout(s.passing, i, c);
      TimesJoin(s.applied, [s.passing[i]], c);
    case FlushOne =>
      Moved(s.flush, c);
      TimesJoin(s.applied, [s.flush[0]], c);
    case _ =>
  }

  lemma StepKeepsInv(s: State, a: Action)
    requires Inv(s) && Enabled(s, a)
    ensures Inv(Step(s, a))
  {
    forall c: Cand ensures Count(Step(s, a), c) == if c < Step(s, a).arrived then 1 else 0 { StepCounts(s, a, c); }
  }

  lemma {:induction false} RunKeepsInv(s: State, run: seq<Action>)
    requires Inv(s) && ValidRun(s, run)
    ensures Inv(Exec(s, run))
    decreases |run|
  {
    if run != [] {
      StepKeepsInv(s, run[0]);
      RunKeepsInv(Step(s, run[0]), run[1..]);
    }
  }

  /** In every interleaving of lock sections: each candidate handled is applied exactly once or still held,
      none is applied before the remote description is set, and once the flush is over nothing stays
      buffered: what is held is in the hands of a handler that will apply it. */
  lemma CandidatesAppliedExactlyOnce(run: seq<Action>)
    requires ValidRun(START, run)
    ensures var s := Exec(START, run);
            && ExactlyOnce(s.arrived, s.applied, Held(s))
            && (s.applied != [] ==> s.described)
            && (s.answer.Answered? ==> s.pending == [] && s.flush == [])
            && (s.answer.NoAnswer? || s.answer.Refused? ==> s.applied == [])
  {
    RunKeepsInv(START, run);
    var s := Exec(START, run);
    forall c: Cand ensures Times(s.applied, c) + Times(Held(s), c) == if c < s.arrived then 1 else 0 {
      TimesJoin(s.flush + s.passing + s.pending, s.entered, c);
      TimesJoin(s.flush + s.passing, s.pending, c);
      TimesJoin(s.flush, s.passing, c);
      assert Count(s, c) == if c < s.arrived then 1 else 0;
    }
  }

  /** One goroutine reads the socket: a handler is entered only when no other is running. */
  predicate Quiet(s: State) {
    s.entered == [] && s.passing == [] && !s.answer.Described? && !s.answer.Flushing?
  }

  predicate SingleReader(s: State, run: seq<Action>)
    requires ValidRun(s, run)
    decreases |run|
  {
    run == [] ||
    ((run[0].Arrive? || run[0].SetAnswer? ==> Quiet(s)) && SingleReader(Step(s, run[0]), run[1..]))
  }

  ghost predicate InOrder(s: State) {
    && s.applied + Held(s) == UpTo(s.arrived)
    && |s.entered| + |s.passing| <= 1
    && (s.answer.Described? || s.answer.Flushing? ==> s.entered == [] && s.passing == [])
  }

  lemma LockKeepsOrder(s: State, a: Action)
    requires Inv(s) && InOrder(s) && a.Lock? && Enabled(s, a)
    ensures InOrder(Step(s, a))
  {
  }

  lemma ApplyKeepsOrder(s: State, a: Action)
    requires Inv(s) && InOrder(s) && a.Apply? && Enabled(s, a)
    ensures InOrder(Step(s, a))
  {
  }

  lemma StepKeepsOrder(s: State, a: Action)
    requires Inv(s) && InOrder(s) && Enabled(s, a) && (a.Arrive? || a.SetAnswer? ==> Quiet(s))
    ensures InOrder(Step(s, a))
  {
    var s' := Step(s, a);
    match a
    case Arrive =>
      UpToNext(s.arrived);
      assert Held(s') == Held(s) + [s.arrived];
      assert s'.applied + Held(s') == (s.applied + Held(s)) + [s.arrived];
    case Lock(_) => LockKeepsOrder(s, a);
    case Apply(_) => ApplyKeepsOrder(s, a);
    case TakePending => assert Held(s') == Held(s);
    case FlushOne =>
      assert [s.flush[0]] + Held(s') == Held(s);
      assert s'.applied + Held(s') == s.applied + ([s.flush[0]] + Held(s'));
    case _ =>
  }

  /** With the agent's single reader the candidates are applied in the order they arrived, the buffered
      ones before those that came after the answer. */
  lemma {:induction false} AppliedInArrivalOrder(s: State, run: seq<Action>)
    requires Inv(s) && InOrder(s) && ValidRun(s, run) && SingleReader(s, run)
    ensures InOrder(Exec(s, run)) && Exec(s, run).applied == UpTo(|Exec(s, run).applied|)
    decreases |run|
  {
    if run != [] {
      StepKeepsInv(s, run[0]);
      StepKeepsOrder(s, run[0]);
      AppliedInArrivalOrder(Step(s, run[0]), run[1..]);
    } else {
      assert s.applied == (s.applied + Held(s))[..|s.applied|];
    }
  }

  lemma SingleReaderAppliesInOrder(run: seq<Action>)
    requires ValidRun(START, run) && SingleReader(START, run)
    ensures var s := Exec(START, run); s.applied == UpTo(|s.applied|) && s.applied + Held(s) == UpTo(s.arrived)
  {
    AppliedInArrivalOrder(START, run);
  }

  // ----- Everything is applied in the end -----

  /** A step of a handler under way, not the entry of one. */
  predicate Inner(a: Action) { !a.Arrive? && !a.SetAnswer? }

  /** No handler is under way. */
  ghost predicate Settled(s: State) { forall a :: Inner(a) ==> !Enabled(s, a) }

  /** How many steps the handlers under way can still make. */
  function Left(s: State): nat {
    3 * |s.entered| + 2 * |s.pending| + |s.passing| + |s.flush| +
    (if s.answer.Described? then 2 else if s.answer.Flushing? then 1 else 0)
  }

  lemma InnerStepsEnd(s: State, a: Action)
    requires Enabled(s, a) && Inner(a)
    ensures Left(Step(s, a)) < Left(s)
  {
  }

  /** What became of the answer. */
  predicate AnswerIs(s: State, run: seq<Action>) {
    && (SetAnswer(true) in run <==> s.answer.Described? || s.answer.Flushing? || s.answer.Answered?)
    && (SetAnswer(false) in run <==> s.answer.Refused?)
  }

  lemma {:induction false} RunKeepsAnswer(s: State, before: seq<Action>, run: seq<Action>)
    requires AnswerIs(s, before) && ValidRun(s, run)
    ensures AnswerIs(Exec(s, run), before + run)
    decreases |run|
  {
    if run == [] {
      assert before + run == before;
    } else {
      var next := before + [run[0]];
      assert forall a :: a in next <==> a in before || a == run[0];
      RunKeepsAnswer(Step(s, run[0]), next, run[1..]);
      assert next + run[1..] == before + run;
    }
  }

  /** Whatever the interleaving, the handlers make only finitely many steps, and when none is under way: if the answer was
      accepted every candidate that arrived has been applied, exactly once; if not, none has. */
  lemma SettledMeansApplied(run: seq<Action>)
    requires ValidRun(START, run) && Settled(Exec(START, run))
    ensures var s := Exec(START, run);
            if SetAnswer(true) in run then ExactlyOnce(s.arrived, s.applied, []) else s.applied == []
  {
    var s := Exec(START, run);
    RunKeepsInv(START, run);
    assert [] + run == run;
    RunKeepsAnswer(START, [], run);
    assert !Enabled(s, Lock(0)) && !Enabled(s, Apply(0)) && !Enabled(s, TakePending);
    assert !Enabled(s, FlushOne) && !Enabled(s, FlushEnd);
    if SetAnswer(true) in run {
      forall c: Cand ensures Times(s.applied, c) == if c < s.arrived then 1 else 0 {
        assert Count(s, c) == if c < s.arrived then 1 else 0;
      }
    }
  }

  /** The session as the object it is. `HandleAnswer` and `HandleICECandidate` run to completion here, as
      they do on the socket reader's goroutine. */
  class Vp8Session {
    var described: bool
    var remoteSet: bool
    var pendingCand: seq<Cand>
    var applied: seq<Cand>
    var arrived: nat

    ghost predicate Valid()
      reads this
    {
      && applied + pendingCand == UpTo(arrived)
      && (remoteSet ==> pendingCand == [] && described)
      && (!remoteSet ==> applied == [])
    }

    constructor ()
      ensures Valid() && arrived == 0 && !remoteSet
    {
      described, remoteSet, pendingCand, applied, arrived := false, false, [], [], 0;
    }

    method AddICECandidate(c: Cand)
      requires described
      modifies this`applied
      ensures applied == old(applied) + [c]
    {
      applied := applied + [c];
    }

    /** `accepted` is whether the peer connection took the answer. */
    method HandleAnswer(accepted: bool)
      requires Valid()
      modifies this
      ensures Valid() && arrived == old(arrived)
      ensures accepted ==> remoteSet && pendingCand == [] && applied == old(applied) + old(pendingCand)
      ensures !accepted ==> remoteSet == old(remoteSet) && pendingCand == old(pendingCand) && applied == old(applied)
    {
      if !accepted {
        return;
      }
      described := true;
      remoteSet := true;
      var pending := pendingCand;
      pendingCand := [];
      for i := 0 to |pending|
        invariant described && remoteSet && pendingCand == [] && arrived == old(arrived)
        invariant applied == old(applied) + pending[..i]
      {
        AddICECandidate(pending[i]);
        assert pending[..i + 1] == pending[..i] + [pending[i]];
      }
      assert pending[..|pending|] == pending;
    }

    method HandleICECandidate(candidate: string)
      requires Valid()
      modifies this
      ensures Valid() && remoteSet == old(remoteSet)
      ensures arrived == old(arrived) + (if candidate == "" then 0 else 1)
      ensures candidate == "" || !remoteSet ==> applied == old(applied)
      ensures candidate != "" && remoteSet ==> applied == old(applied) + [old(arrived)]
    {
      if candidate == "" {
        return;
      }
      var init := arrived;
      UpToNext(arrived);
      arrived := arrived + 1;
      if !remoteSet {
        pendingCand := pendingCand + [init];
        assert applied + pendingCand == (applied + old(pendingCand)) + [init];
        return;
      }
      AddICECandidate(init);
    }
  }
}

/** `SessionConnection.onOffer` and `onRemoteCandidate`: one thread, interleaved at every await. */
module BrowserIce {
  import opened Counting
  import opened TrickleIce

  /** `Awaiting` waits for setRemoteDescription; `Flushing` is between two awaits of the loop over the buffer;
      `Flushed` waits for createAnswer, `Created` for setLocalDescription; with `Answered` the answer is sent. */
  datatype OfferPc = NoOffer | Awaiting | Flushing | Flushed | Created | Answered | Failed

  /** `next` is the loop's position in `pending`; `closed` is that `close()` has dropped the peer connection. */
  datatype State = State(
    described: bool, remoteSet: bool, pending: seq<Cand>, offer: OfferPc, next: nat, closed: bool,
    arrived: nat, applied: seq<Cand>, dropped: seq<Cand>)

  const START := State(false, false, [], NoOffer, 0, false, 0, [], [])

  datatype Action =
    | Arrive | OfferArrives | DescriptionSet | DescriptionFails | OfferResumes | FlushOne | FlushEnd
    | AnswerCreated | AnswerSent | AnswerFails | Close

  predicate Enabled(s: State, a: Action) {
    match a
    case Arrive => true
    case OfferArrives => s.offer.NoOffer?
    case DescriptionSet => s.offer.Awaiting? && !s.described
    case DescriptionFails => s.offer.Awaiting? && !s.described
    case OfferResumes => s.offer.Awaiting? && s.described
    case FlushOne => s.offer.Flushing? && s.next < |s.pending|
    case FlushEnd => s.offer.Flushing? && s.next >= |s.pending|
    case AnswerCreated => s.offer.Flushed?
    case AnswerSent => s.offer.Created?
    case AnswerFails => s.offer.Flushed? || s.offer.Created?
    case Close => true
  }

  function Step(s: State, a: Action): State
    requires Enabled(s, a)
  {
    match a
    case Arrive =>
      var s' := s.(arrived := s.arrived + 1);
      if !s.remoteSet then s'.(pending := s.pending + [s.arrived])
      else if s.closed then s'.(dropped := s.dropped + [s.arrived])
      else s'.(applied := s.applied + [s.arrived])
    case OfferArrives => s.(offer := Awaiting)
    case DescriptionSet => s.(described := true)
    case DescriptionFails => s.(offer := Failed)
    case OfferResumes => s.(remoteSet := true, offer := Flushing, next := 0)
    case FlushOne => s.(applied := s.applied + [s.pending[s.next]], next := s.next + 1)
    case FlushEnd => s.(pending := [], next := 0, offer := Flushed)
    case AnswerCreated => s.(offer := Created)
    case AnswerSent => s.(offer := Answered)
    case AnswerFails => s.(offer := Failed)
    case Close => s.(closed := true)
  }

  predicate ValidRun(s: State, run: seq<Action>)
    decreases |run|
  {
    run == [] || (Enabled(s, run[0]) && ValidRun(Step(s, run[0]), run[1..]))
  }

  function Exec(s: State, run: seq<Action>): State
    requires ValidRun(s, run)
    decreases |run|
  {
    if run == [] then s else Exec(Step(s, run[0]), run[1..])
  }

  /** What is buffered and not yet handed to the peer connection. */
  function Buffered(s: State): seq<Cand> {
    if s.next <= |s.pending| then s.pending[s.next..] else []
  }

  ghost function Count(s: State, c: Cand): nat { Times(s.applied, c) + Times(Buffered(s), c) + Times(s.dropped, c) }

  ghost predicate Inv(s: State) {
    && (forall c: Cand :: Count(s, c) == if c < s.arrived then 1 else 0)
    && s.next <= |s.pending| && (!s.offer.Flushing? ==> s.next == 0)
    && (s.offer.NoOffer? || s.offer.Awaiting? ==> !s.remoteSet)
    && (s.offer.Flushing? || s.offer.Flushed? || s.offer.Created? || s.offer.Answered? ==> s.remoteSet)
    && (s.remoteSet ==> s.described)
    && (s.remoteSet && !s.offer.Flushing? ==> s.pending == [])
    && (!s.remoteSet ==> s.applied == [])
    && (s.dropped != [] ==> s.closed && s.remoteSet)
    && |s.applied| + |Buffered(s)| + |s.dropped| == s.arrived
  }

  lemma StepCounts(s: State, a: Action, c: Cand)
    requires Inv(s) && Enabled(s, a)
    ensures Count(Step(s, a), c) == Count(s, c) + (if a.Arrive? && c == s.arrived then 1 else 0)
  {
    var s' := Step(s, a);
    match a
    case Arrive =>
      if !s.remoteSet { assert Buffered(s') == Buffered(s) + [s.arrived]; }
      TimesJoin(Buffered(s), [s.arrived], c);
      TimesJoin(s.dropped, [s.arrived], c);
      TimesJoin(s.applied, [s.arrived], c);
    case FlushOne =>
      assert Buffered(s)[1..] == Buffered(s');
      Moved(Buffered(s), c);
      TimesJoin(s.applied, [s.pending[s.next]], c);
    case FlushEnd => assert Buffered(s) == [] == Buffered(s');
    case _ =>
  }

  lemma StepKeepsInv(s: State, a: Action)
    requires Inv(s) && Enabled(s, a)
    ensures Inv(Step(s, a))
  {
    forall c: Cand ensures Count(Step(s, a), c) == if c < Step(s, a).arrived then 1 else 0 { StepCounts(s, a, c); }
  }

  lemma {:induction false} RunKeepsInv(s: State, run: seq<Action>)
    requires Inv(s) && ValidRun(s, run)
    ensures Inv(Exec(s, run))
    decreases |run|
  {
    if run != [] {
      StepKeepsInv(s, run[0]);
      RunKeepsInv(Step(s, run[0]), run[1..]);
    }
  }

  /** In every interleaving of await points: until the session is closed each candidate handled is applied
      exactly once or still buffered, none before the remote description is set, and nothing stays buffered
      once the flush is over, so nothing is when the answer is sent. Closing may only drop candidates that
      arrive afterwards. */
  lemma CandidatesAppliedExactlyOnce(run: seq<Action>)
    requires ValidRun(START, run)
    ensures var s := Exec(START, run);
            && ExactlyOnce(s.arrived, s.applied, Buffered(s) + s.dropped)
            && (s.dropped != [] ==> s.closed && s.remoteSet)
            && (s.applied != [] ==> s.described)
            && (s.offer.Flushed? || s.offer.Created? || s.offer.Answered? ==> s.remoteSet && s.pending == [])
  {
    RunKeepsInv(START, run);
    var s := Exec(START, run);
    forall c: Cand ensures Times(s.applied, c) + Times(Buffered(s) + s.dropped, c) == if c < s.arrived then 1 else 0 {
      TimesJoin(Buffered(s), s.dropped, c);
      assert Count(s, c) == if c < s.arrived then 1 else 0;
    }
  }

  // ----- Order -----

  /** What is applied and what is still to be, in that order. */
  function Line(s: State): seq<Cand> { s.applied + Buffered(s) }

  ghost predicate InOrder(s: State) { Line(s) == UpTo(s.arrived) }

  /** A candidate that arrives while the buffer is being flushed is applied at once, ahead of what is left. */
  predicate Overtakes(s: State, a: Action) { a.Arrive? && s.remoteSet && (s.closed || Buffered(s) != []) }

  lemma OrderKeptIff(s: State, a: Action)
    requires Inv(s) && Enabled(s, a)
    ensures InOrder(Step(s, a)) <==> InOrder(s) && !Overtakes(s, a)
  {
    hide InOrder, Inv;
    if a.Arrive? {
      ArrivalKeepsOrderIff(s);
    } else {
      OtherStepKeepsQueue(s, a);
      SameOrder(s, Step(s, a));
    }
  }

  lemma OtherStepKeepsQueue(s: State, a: Action)
    requires Inv(s) && Enabled(s, a) && !a.Arrive?
    ensures Line(Step(s, a)) == Line(s) && Step(s, a).arrived == s.arrived
  {
    hide Count;
    if a.FlushOne? {
      FlushKeepsLine(s);
    } else {
      assert Buffered(Step(s, a)) == Buffered(s);
    }
  }

  lemma FlushKeepsLine(s: State)
    requires Enabled(s, FlushOne)
    ensures Line(Step(s, FlushOne)) == Line(s)
  {
    assert [s.pending[s.next]] + Buffered(Step(s, FlushOne)) == Buffered(s);
  }

  lemma SameOrder(s: State, s': State)
    requires Line(s') == Line(s) && s'.arrived == s.arrived
    ensures InOrder(s') <==> InOrder(s)
  {
  }

  lemma ArrivalKeepsOrderIff(s: State)
    requires Inv(s)
    ensures InOrder(Step(s, Arrive)) <==> InOrder(s) && !Overtakes(s, Arrive)
  {
    var s' := Step(s, Arrive);
    UpToNext(s.arrived);
    if s.remoteSet && s.closed {
      assert |s'.applied + Buffered(s')| < s'.arrived;
    } else if s.remoteSet && Buffered(s) != [] {
      assert (s'.applied + Buffered(s'))[|s.applied|] == s.arrived;
    } else {
      if !s.remoteSet { assert Buffered(s') == Buffered(s) + [s.arrived]; }
      assert s'.applied + Buffered(s') == (s.applied + Buffered(s)) + [s.arrived];
      assert UpTo(s.arrived) == UpTo(s'.arrived)[..s.arrived];
      assert s.applied + Buffered(s) == (s'.applied + Buffered(s'))[..s.arrived];
    }
  }

  predicate NeverOvertakes(s: State, run: seq<Action>)
    requires ValidRun(s, run)
    decreases |run|
  {
    run == [] || (!Overtakes(s, run[0]) && NeverOvertakes(Step(s, run[0]), run[1..]))
  }

  lemma {:induction false} RunOrderIff(s: State, run: seq<Action>)
    requires Inv(s) && ValidRun(s, run)
    ensures InOrder(Exec(s, run)) <==> InOrder(s) && NeverOvertakes(s, run)
    decreases |run|
  {
    if run != [] {
      OrderKeptIff(s, run[0]);
      StepKeepsInv(s, run[0]);
      RunOrderIff(Step(s, run[0]), run[1..]);
    }
  }

  /** Unlike the agent's, the browser's order is not always the arrival order. It is, over a whole run,
      exactly when no candidate arrives during the flush (or after `close`). */
  lemma ArrivalOrderIff(run: seq<Action>)
    requires ValidRun(START, run)
    ensures InOrder(Exec(START, run)) <==> NeverOvertakes(START, run)
  {
    RunOrderIff(START, run);
  }

  /** It does happen: a candidate that arrives before the flush has begun its first turn is applied first. */
  lemma OvertakingHappens()
    ensures var run := [Arrive, OfferArrives, DescriptionSet, OfferResumes, Arrive, FlushOne];
            ValidRun(START, run) && Exec(START, run).applied == [1, 0]
  {
    var run := [Arrive, OfferArrives, DescriptionSet, OfferResumes, Arrive, FlushOne];
    var s1 := Step(START, Arrive);
    var s2 := Step(s1, OfferArrives);
    var s3 := Step(s2, DescriptionSet);
    var s4 := Step(s3, OfferResumes);
    var s5 := Step(s4, Arrive);
    var s6 := Step(s5, FlushOne);
    assert ValidRun(s6, []) && Exec(s6, []) == s6;
    assert run[5..] == [FlushOne] && ValidRun(s5, run[5..]) && Exec(s5, run[5..]) == s6;
    assert run[4..] == [Arrive] + run[5..] && ValidRun(s4, run[4..]) && Exec(s4, run[4..]) == s6;
    assert run[3..] == [OfferResumes] + run[4..] && ValidRun(s3, run[3..]) && Exec(s3, run[3..]) == s6;
    assert run[2..] == [DescriptionSet] + run[3..] && ValidRun(s2, run[2..]) && Exec(s2, run[2..]) == s6;
    assert run[1..] == [OfferArrives] + run[2..] && ValidRun(s1, run[1..]) && Exec(s1, run[1..]) == s6;
  }

  // ----- Everything is applied in the end -----

  /** A step of the offer's handler once the description is set, but for a failure of the answer. */
  predicate Inner(a: Action) {
    a.OfferResumes? || a.FlushOne? || a.FlushEnd? || a.AnswerCreated? || a.AnswerSent?
  }

  ghost predicate Settled(s: State) { forall a :: Inner(a) ==> !Enabled(s, a) }

  function Left(s: State): nat {
    match s.offer
    case Awaiting => 4 + |s.pending|
    case Flushing => 3 + (if s.next <= |s.pending| then |s.pending| - s.next else 0)
    case Flushed => 2
    case Created => 1
    case _ => 0
  }

  lemma InnerStepsEnd(s: State, a: Action)
    requires Enabled(s, a) && Inner(a)
    ensures Left(Step(s, a)) < Left(s)
  {
  }

  /** What became of the offer and of the connection. */
  predicate OfferIs(s: State, run: seq<Action>) {
    && (s.offer.NoOffer? <==> OfferArrives !in run)
    && (s.described <==> DescriptionSet in run)
    && (s.offer.Failed? <==> DescriptionFails in run || AnswerFails in run)
    && (AnswerFails in run ==> s.described && s.remoteSet)
    && (DescriptionFails in run ==> !s.described)
    && (s.described ==> !s.offer.NoOffer? && (s.offer.Failed? ==> s.remoteSet))
    && (s.closed <==> Close in run)
  }

  lemma StepKeepsOffer(s: State, before: seq<Action>, a: Action)
    requires Inv(s) && OfferIs(s, before) && Enabled(s, a)
    ensures OfferIs(Step(s, a), before + [a])
  {
    assert forall b :: b in before + [a] <==> b in before || b == a;
  }

  lemma {:induction false} RunKeepsOffer(s: State, before: seq<Action>, run: seq<Action>)
    requires Inv(s) && OfferIs(s, before) && ValidRun(s, run)
    ensures OfferIs(Exec(s, run), before + run)
    decreases |run|
  {
    if run == [] {
      assert before + run == before;
    } else {
      StepKeepsOffer(s, before, run[0]);
      StepKeepsInv(s, run[0]);
      RunKeepsOffer(Step(s, run[0]), before + [run[0]], run[1..]);
      assert before + [run[0]] + run[1..] == before + run;
    }
  }

  /** Whatever comes between the awaits, the offer's handler makes only finitely many steps, and when it waits for nothing
      but the browser: once the description was set every candidate that arrived has been applied exactly once, but for
      those dropped after `close`, and the answer is sent unless making it failed. */
  lemma SettledMeansApplied(run: seq<Action>)
    requires ValidRun(START, run) && Settled(Exec(START, run)) && DescriptionSet in run
    ensures var s := Exec(START, run);
            && ExactlyOnce(s.arrived, s.applied, s.dropped) && s.remoteSet && s.pending == []
            && (s.offer.Answered? <==> AnswerFails !in run)
            && (Close !in run ==> s.dropped == [])
  {
    var s := Exec(START, run);
    RunKeepsInv(START, run);
    assert [] + run == run;
    RunKeepsOffer(START, [], run);
    assert !Enabled(s, OfferResumes) && !Enabled(s, FlushOne) && !Enabled(s, FlushEnd);
    assert !Enabled(s, AnswerCreated) && !Enabled(s, AnswerSent);
    forall c: Cand ensures Times(s.applied, c) + Times(s.dropped, c) == if c < s.arrived then 1 else 0 {
      assert Count(s, c) == if c < s.arrived then 1 else 0;
    }
  }

  /** The connection as the object it is: each method is what runs between two awaits. */
  class SessionConnection {
    var described: bool
    var remoteDescriptionSet: bool
    var pendingCandidates: seq<Cand>
    var offer: OfferPc
    var next: nat
    var closed: bool
    var arrived: nat
    var applied: seq<Cand>
    ghost var dropped: seq<Cand>

    ghost function View(): State
      reads this
    {
      State(described, remoteDescriptionSet, pendingCandidates, offer, next, closed, arrived, applied, dropped)
    }

    constructor ()
      ensures View() == START
    {
      described, remoteDescriptionSet, pendingCandidates, offer, next := false, false, [], NoOffer, 0;
      closed, arrived, applied, dropped := false, 0, [], [];
    }

    method OnRemoteCandidate(candidate: string)
      modifies this
      ensures View() == if candidate == "" then old(View()) else Step(old(View()), Arrive)
    {
      if candidate == "" {
        return;
      }
      var init := arrived;
      arrived := arrived + 1;
      if !remoteDescriptionSet {
        pendingCandidates := pendingCandidates + [init];
        return;
      }
      if closed {
        dropped := dropped + [init];
      } else {
        applied := applied + [init];
      }
    }

    /** `onOffer`, from the await of setRemoteDescription on. */
    method ResumeOffer()
      requires Enabled(View(), OfferResumes)
      modifies this
      ensures View() == Step(old(View()), OfferResumes)
    {
      remoteDescriptionSet := true;
      offer, next := Flushing, 0;
    }

    /** One turn of the loop over the buffer, or its end. */
    method FlushTurn()
      requires offer.Flushing?
      modifies this
      ensures View() == Step(old(View()), if old(next) < |old(pendingCandidates)| then FlushOne else FlushEnd)
    {
      if next < |pendingCandidates| {
        applied := applied + [pendingCandidates[next]];
        next := next + 1;
      } else {
        pendingCandidates, next, offer := [], 0, Flushed;
      }
    }

    /** `onOffer` after the flush: the answer is created, set and sent, unless either step throws. */
    method AnswerTurn(thrown: bool) returns (sent: bool)
      requires offer.Flushed? || offer.Created?
      modifies this`offer
      ensures View() == Step(old(View()), if thrown then AnswerFails else if old(offer).Flushed? then AnswerCreated
                                          else AnswerSent)
      ensures sent <==> offer.Answered?
    {
      sent := !thrown && offer.Created?;
      offer := if thrown then Failed else if offer.Flushed? then Created else Answered;
    }
  }
}
