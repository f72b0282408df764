/** What the capture pipeline promises, for every interleaving of its two goroutines. */
module CapturePipelineProperties {
  import opened Basics
  import opened CapturePipeline

  // ----- Ownership -----

  /** In every reachable state each buffer is in exactly one place, so the converter writes to a buffer
      that is neither pending nor with the encoder, and a buffer is lost only after cancellation. */
  lemma BuffersAreOwnedOnce(n: nat, run: seq<Action>)
    requires ValidRun(Init(n), run)
    ensures var s := Exec(Init(n), run);
            && (forall b: Buffer :: Places(s, b) == if b < n then 1 else 0)
            && (s.cap.buf.Some? ==> s.cap.buf != s.enc.inFlight && s.cap.buf != s.enc.buf &&
                                    s.cap.buf.value !in s.ch.frames)
            && (s.log.lost != [] ==> s.cancelled && s.enc.pc.Stopped? && |s.log.lost| == 1)
  {
    Reachable(n, run);
    var s := Exec(Init(n), run);
    if s.cap.buf.Some? { ConverterIsAlone(s); }
  }

  predicate NeverReads(run: seq<Action>) {
    forall i :: 0 <= i < |run| ==> run[i] != Encode(Proceed)
  }

  /** Whatever the capture side does, a delivered frame keeps its pixels until the encoder calls `read` again. */
  lemma {:induction false} DeliveredPixelsStay(s: State, run: seq<Action>)
    requires Inv(s) && s.enc.pc.Away? && s.enc.inFlight.Some?
    requires ValidRun(s, run) && NeverReads(run)
    ensures var s' := Exec(s, run);
            s'.enc.inFlight == s.enc.inFlight && Look(s'.pixels, s.enc.inFlight) == Look(s.pixels, s.enc.inFlight)
    decreases |run|
  {
    if run != [] {
      var s1 := Step(s, run[0]);
      StepKeepsInv(s, run[0]);
      if s.cap.buf.Some? { ConverterIsAlone(s); }
      assert s1.enc.inFlight == s.enc.inFlight && Look(s1.pixels, s.enc.inFlight) == Look(s.pixels, s.enc.inFlight);
      if s1.enc.pc.Away? {
        DeliveredPixelsStay(s1, run[1..]);
      } else {
        StoppedPixelsStay(s1, run[1..]);
      }
    }
  }

  lemma {:induction false} StoppedPixelsStay(s: State, run: seq<Action>)
    requires Inv(s) && s.enc.pc.Stopped? && s.enc.inFlight.Some?
    requires ValidRun(s, run)
    ensures var s' := Exec(s, run);
            s'.enc.inFlight == s.enc.inFlight && Look(s'.pixels, s.enc.inFlight) == Look(s.pixels, s.enc.inFlight)
    decreases |run|
  {
    if run != [] {
      StepKeepsInv(s, run[0]);
      if s.cap.buf.Some? { ConverterIsAlone(s); }
      StoppedPixelsStay(Step(s, run[0]), run[1..]);
    }
  }

  // ----- Three buffers suffice, two do not -----

  lemma {:induction false} NeverReclaims(s: State, run: seq<Action>)
    requires Inv(s) && s.size >= 3 && !s.cap.pc.TryPending? && ValidRun(s, run)
    ensures !Exec(s, run).cap.pc.TryPending?
    decreases |run|
  {
    if run != [] {
      StepKeepsInv(s, run[0]);
      NeverReclaims(Step(s, run[0]), run[1..]);
    }
  }

  /** With three buffers or more `acquire` always finds a free one, and the branches guarding against the
      opposite are unreachable: reclaiming the pending frame, returning nil, `publish` handing the buffer
      back, `read` dropping one for want of room. No send on `free` ever has to wait. */
  lemma ThreeBuffersSuffice(n: nat, run: seq<Action>)
    requires n >= 3 && ValidRun(Init(n), run)
    ensures var s := Exec(Init(n), run);
            && (s.cap.pc.TryFree? ==> s.ch.free != [])
            && !s.cap.pc.TryPending? && !s.cap.pc.GiveBack?
            && (s.cap.pc.GiveBackStale? ==> |s.ch.free| < n)
            && (s.enc.pc.Recycle? && s.enc.inFlight.Some? ==> |s.ch.free| < n)
  {
    Reachable(n, run);
    InitHolds(n);
    NeverReclaims(Init(n), run);
  }

  lemma {:induction false} Extend(s: State, run: seq<Action>, a: Action)
    requires ValidRun(s, run) && CanStep(Exec(s, run), a)
    ensures ValidRun(s, run + [a]) && Exec(s, run + [a]) == Step(Exec(s, run), a)
    decreases |run|
  {
    if run == [] {
      assert run + [a] == [a];
    } else {
      assert (run + [a])[1..] == run[1..] + [a];
      Extend(Step(s, run[0]), run[1..], a);
    }
  }

  lemma Go(s: State, run: seq<Action>, a: Action) returns (r: seq<Action>)
    requires ValidRun(s, run) && CanStep(Exec(s, run), a)
    ensures ValidRun(s, r) && Exec(s, r) == Step(Exec(s, run), a)
  {
    r := run + [a];
    Extend(s, run, a);
  }

  /** From the loop head, with a free buffer and an empty slot: convert and publish. */
  lemma PublishLap(s: State, run: seq<Action>) returns (r: seq<Action>)
    requires ValidRun(s, run)
    requires var e := Exec(s, run); e.cap.pc.Check? && !e.cancelled && e.ch.free != [] && e.ch.frames == []
    ensures ValidRun(s, r)
    ensures var e := Exec(s, run); var e' := Exec(s, r);
            e'.cap.pc.Tick? && e'.cap.shot == e.cap.shot && !e'.cancelled && e'.enc == e.enc && e'.size == e.size &&
            e'.ch == e.ch.(free := e.ch.free[1..], frames := [e.ch.free[0]])
  {
    r := Go(s, run, Capture(Proceed));
    r := Go(s, r, Capture(Proceed));
    r := Go(s, r, Capture(Proceed));
    r := Go(s, r, Capture(Proceed));
    r := Go(s, r, Capture(Proceed));
    r := Go(s, r, Capture(Proceed));
  }

  /** From the ticker, with the token there: grab the next capture and return to the loop head. */
  lemma GrabLap(s: State, run: seq<Action>) returns (r: seq<Action>)
    requires ValidRun(s, run)
    requires var e := Exec(s, run); e.cap.pc.Tick? && e.ch.gate == 1
    ensures ValidRun(s, r)
    ensures var e := Exec(s, run); var e' := Exec(s, r);
            e'.cap.pc.Check? && e'.cancelled == e.cancelled && e'.enc == e.enc && e'.size == e.size && e'.ch == e.ch
  {
    r := Go(s, run, Capture(Proceed));
    r := Go(s, r, Capture(Proceed));
    r := Go(s, r, Capture(Proceed));
    r := Go(s, r, Capture(Proceed));
  }

  /** The first call of `read`: nothing to recycle, a frame pending, the token there. */
  lemma FirstRead(s: State, run: seq<Action>) returns (r: seq<Action>)
    requires ValidRun(s, run)
    requires Exec(s, run).enc == Encoder(Away, None, None, false) && |Exec(s, run).ch.frames| == 1
    requires Exec(s, run).ch.errs == [] && Exec(s, run).ch.gate == 1 && |Exec(s, run).ch.free| < Exec(s, run).size
    ensures ValidRun(s, r)
    ensures var e := Exec(s, run); var e' := Exec(s, r);
            e'.cap == e.cap && e'.cancelled == e.cancelled && e'.size == e.size && e'.ch == e.ch.(frames := [], gate := 0) &&
            e'.enc == Encoder(Away, None, Some(e.ch.frames[0]), true)
  {
    r := Go(s, run, Encode(Proceed));
    r := Go(s, r, Encode(Proceed));
    r := Go(s, r, Encode(Proceed));
    r := Go(s, r, Encode(Proceed));
    r := Go(s, r, Encode(Proceed));
    r := Go(s, r, Encode(Proceed));
  }

  /** The bound is tight: with two buffers there is a run on which `acquire` comes back empty handed.
      The encoder has given the token back but not yet recycled its buffer, and takes the pending frame
      between `acquire`'s two attempts. */
  lemma TwoBuffersAreTooFew() returns (r: seq<Action>)
    ensures ValidRun(Init(2), r) && Exec(Init(2), r).cap.pc.TryPending? && Exec(Init(2), r).ch.frames == []
  {
    var s := Init(2);
    r := PublishLap(s, []);
    r := FirstRead(s, r);
    r := Go(s, r, Encode(Proceed));
    r := Go(s, r, Encode(Proceed));
    r := GrabLap(s, r);
    r := PublishLap(s, r);
    r := GrabLap(s, r);
    r := Go(s, r, Capture(Proceed));
    r := Go(s, r, Capture(Proceed));
    r := Go(s, r, Encode(Proceed));
    r := Go(s, r, Encode(Proceed));
    r := Go(s, r, Encode(Proceed));
  }

  // ----- The gate -----

  predicate Encoding(s: State) {
    s.enc.pc.Away? && s.enc.holdsGate
  }

  /** A screen grab never overlaps an encode, there is always exactly one token, and the encoder never
      holds it while it waits for a frame or for the token. */
  lemma GrabNeverOverlapsEncode(n: nat, run: seq<Action>)
    requires ValidRun(Init(n), run)
    ensures var s := Exec(Init(n), run);
            && !(s.cap.pc.Grabbing? && Encoding(s))
            && s.ch.gate + (if s.enc.holdsGate then 1 else 0) +
               (if s.cap.pc.Grabbing? || s.cap.pc.Unlock? then 1 else 0) == 1
            && (s.enc.pc.Select? || s.enc.pc.TakeGate? ==> !s.enc.holdsGate)
            && (Encoding(s) <==> s.enc.pc.Away? && s.enc.inFlight.Some?)
  {
    Reachable(n, run);
  }

  // ----- Freshness and accounting -----

  /** Delivered captures are whole and strictly newer each time, the pending frame is always the newest
      one published, and every published frame is delivered, overwritten, pending, in `read`'s hands, or
      (only after cancellation) lost. */
  lemma DeliveryIsFresh(n: nat, run: seq<Action>)
    requires ValidRun(Init(n), run)
    ensures var s := Exec(Init(n), run);
            && Increasing(s.log.delivered)
            && (s.ch.frames != [] ==> 0 <= s.log.newest && Look(s.pixels, Some(s.ch.frames[0])) == Frame(s.log.newest))
            && (s.enc.inFlight.Some? ==> s.log.delivered != [])
            && (s.enc.inFlight.Some? ==> Look(s.pixels, s.enc.inFlight) == s.log.delivered[|s.log.delivered| - 1])
            && s.log.published == |s.log.delivered| + s.log.discarded + |s.ch.frames| + |One(s.enc.buf)| + |s.log.lost|
            && (!s.cancelled ==> s.log.lost == [])
  {
    Reachable(n, run);
  }

  // ----- Progress -----

  /** Nobody has asked to stop and no grab has failed. */
  predicate Live(s: State) {
    && !s.cancelled && !s.enc.pc.Stopped? && s.ch.errs == []
    && !s.cap.pc.Fail? && !s.cap.pc.CloseFrames? && !s.cap.pc.Done?
    && (s.cap.pc.Unlock? ==> s.cap.outcome.None?)
  }

  /** A schedule that heads for the next delivery: run the encoder unless it waits for the capture side. */
  function Scheduler(s: State): Action {
    if (s.enc.pc.Select? && s.ch.frames == []) || (s.enc.pc.TakeGate? && s.ch.gate == 0) then Capture(Proceed)
    else Encode(Proceed)
  }

  function StepsToPublish(pc: CapturePc): nat {
    match pc
    case Offer => 1 case GiveBackStale => 2 case Drain => 3 case Converting => 4 case Convert => 5
    case TryPending => 6 case TryFree => 7 case Check => 8 case Unlock => 9 case Grabbing => 10
    case LockGate => 11 case Tick => 12 case _ => 13
  }

  function StepsToDelivery(s: State): nat {
    match s.enc.pc
    case Away => 22 case Release => 21 case Recycle => 20 case PollErr => 19
    case Select => 4 + (if s.ch.frames == [] then StepsToPublish(s.cap.pc) else 0)
    case TakeGate => 1 + (if s.ch.gate > 0 then 0 else if s.cap.pc.Unlock? then 1 else 2)
    case Stopped => 0
  }

  lemma ReaderAdvances(s: State)
    requires Inv(s) && Live(s) && Scheduler(s) == Encode(Proceed)
    ensures CanStep(s, Scheduler(s))
    ensures var s' := Step(s, Scheduler(s));
            || |s'.log.delivered| == |s.log.delivered| + 1
            || (s'.log.delivered == s.log.delivered && Live(s') && s'.cap == s.cap && s'.size == s.size &&
                StepsToDelivery(s') < StepsToDelivery(s))
  {
  }

  lemma SchedulerAdvances(s: State)
    requires Inv(s) && s.size >= 3 && !s.cap.pc.TryPending? && Live(s)
    ensures CanStep(s, Scheduler(s))
    ensures var s' := Step(s, Scheduler(s));
            || |s'.log.delivered| == |s.log.delivered| + 1
            || (s'.log.delivered == s.log.delivered && Live(s') && !s'.cap.pc.TryPending? && s'.size == s.size &&
                StepsToDelivery(s') < StepsToDelivery(s))
  {
    if Scheduler(s) == Encode(Proceed) { ReaderAdvances(s); }
  }

  /** From every live state some schedule of at most 22 steps of the two sides makes the next delivery. */
  lemma {:induction false} NextDelivery(s: State) returns (run: seq<Action>)
    requires Inv(s) && s.size >= 3 && !s.cap.pc.TryPending? && Live(s)
    ensures ValidRun(s, run) && 1 <= |run| <= StepsToDelivery(s) <= 22
    ensures forall i :: 0 <= i < |run| ==> run[i] == Capture(Proceed) || run[i] == Encode(Proceed)
    ensures |Exec(s, run).log.delivered| == |s.log.delivered| + 1
    decreases StepsToDelivery(s)
  {
    SchedulerAdvances(s);
    var s' := Step(s, Scheduler(s));
    if |s'.log.delivered| == |s.log.delivered| + 1 {
      run := [Scheduler(s)];
      assert run[1..] == [];
      assert Exec(s', []) == s';
    } else {
      StepKeepsInv(s, Scheduler(s));
      var rest := NextDelivery(s');
      run := [Scheduler(s)] + rest;
      assert run[1..] == rest;
    }
  }

  lemma LiveStatesDeliver(n: nat, run: seq<Action>) returns (more: seq<Action>)
    requires n >= 3 && ValidRun(Init(n), run) && Live(Exec(Init(n), run))
    ensures var s := Exec(Init(n), run);
            ValidRun(s, more) && |more| <= 22 && |Exec(s, more).log.delivered| == |s.log.delivered| + 1
  {
    Reachable(n, run);
    ThreeBuffersSuffice(n, run);
    more := NextDelivery(Exec(Init(n), run));
  }

  ghost predicate CaptureBlocked(s: State) { forall pick :: !CanCapture(s, pick) }

  ghost predicate EncodeBlocked(s: State) { forall pick :: !CanEncode(s, pick) }

  /** Exactly when each side is blocked; the two never wait for each other. The one state in which both
      are stuck while capture is not over is an encoder that has left its loop with the token in hand and
      whose deferred `Close` has not cancelled the session yet. */
  lemma NoDeadlock(n: nat, run: seq<Action>)
    requires ValidRun(Init(n), run)
    ensures var s := Exec(Init(n), run);
            && (CaptureBlocked(s) <==> s.cap.pc.Done? || (s.cap.pc.LockGate? && s.enc.holdsGate && !s.cancelled))
            && (CaptureBlocked(s) && EncodeBlocked(s) ==>
                  s.enc.pc.Stopped? && (s.cap.pc.Done? || (s.cap.pc.LockGate? && s.enc.holdsGate && !s.cancelled)))
  {
    Reachable(n, run);
    var s := Exec(Init(n), run);
    assert s.cap.pc.GiveBackStale? ==> |s.ch.free| < s.size;
    assert CanCapture(s, Proceed) || CanCapture(s, OnCancel) ||
           s.cap.pc.Done? || (s.cap.pc.LockGate? && s.enc.holdsGate && !s.cancelled);
    assert CanEncode(s, Proceed) || CanEncode(s, OnCancel) || CanEncode(s, OnError) || s.enc.pc.Stopped? ||
           s.enc.pc.Select? || s.enc.pc.TakeGate?;
  }

  // ----- Cancellation -----

  /** How many steps the capture side has left once the session is cancelled. */
  function StepsToEnd(pc: CapturePc): nat {
    match pc
    case Done => 0 case CloseFrames => 1 case Check => 2 case Fail => 2 case Unlock => 3 case Grabbing => 4
    case LockGate => 5 case Tick => 6 case GiveBack => 7 case Offer => 8 case GiveBackStale => 9 case Drain => 10
    case Converting => 11 case Convert => 12 case TryPending => 13 case TryFree => 14
  }

  /** How many grabs may still begin once the session is cancelled. */
  function GrabsLeft(pc: CapturePc): nat {
    if StepsToEnd(pc) >= 5 then 1 else 0
  }

  function CaptureSteps(run: seq<Action>): nat
    decreases |run|
  {
    if run == [] then 0 else (if run[0].Capture? then 1 else 0) + CaptureSteps(run[1..])
  }

  lemma CancelledStep(s: State, a: Action)
    requires s.cancelled && CanStep(s, a)
    ensures var s' := Step(s, a);
            && s'.cancelled
            && StepsToEnd(s'.cap.pc) + (if a.Capture? then 1 else 0) <= StepsToEnd(s.cap.pc)
            && s'.log.grabs + GrabsLeft(s'.cap.pc) <= s.log.grabs + GrabsLeft(s.cap.pc)
  {
  }

  lemma {:induction false} CancelledRun(s: State, run: seq<Action>)
    requires s.cancelled && ValidRun(s, run)
    ensures var s' := Exec(s, run);
            && s'.cancelled
            && CaptureSteps(run) + StepsToEnd(s'.cap.pc) <= StepsToEnd(s.cap.pc)
            && s'.log.grabs + GrabsLeft(s'.cap.pc) <= s.log.grabs + GrabsLeft(s.cap.pc)
    decreases |run|
  {
    if run != [] {
      CancelledStep(s, run[0]);
      CancelledRun(Step(s, run[0]), run[1..]);
    }
  }

  /** After cancellation the capture side is never blocked, starts at most one more grab and ends within
      fourteen of its own steps, whatever the encoder does. */
  lemma CaptureEndsAfterCancel(n: nat, run: seq<Action>, more: seq<Action>)
    requires ValidRun(Init(n), run) && Exec(Init(n), run).cancelled && ValidRun(Exec(Init(n), run), more)
    ensures var s := Exec(Init(n), run); var s' := Exec(s, more);
            && s'.log.grabs <= s.log.grabs + 1
            && CaptureSteps(more) <= 14
            && (CaptureBlocked(s') <==> s'.cap.pc.Done?)
  {
    var s := Exec(Init(n), run);
    CancelledRun(s, more);
    Reachable(n, run);
    RunKeepsInv(s, more);
    var s' := Exec(s, more);
    assert s'.cap.pc.GiveBackStale? ==> |s'.ch.free| < s'.size;
    assert s'.cap.pc.Done? || CanCapture(s', Proceed) || CanCapture(s', OnCancel);
  }

  /** No wait is deaf: wherever a side may wait, at the ticker, at the gate on either side and for a frame, cancellation
      is heard, and a reader that waits for a frame hears a stored failure as well. */
  lemma WaitsHearCancellation(s: State)
    ensures s.cap.pc.Tick? || s.cap.pc.LockGate? ==> (CanCapture(s, OnCancel) <==> s.cancelled)
    ensures s.enc.pc.Select? || s.enc.pc.TakeGate? ==> (CanEncode(s, OnCancel) <==> s.cancelled)
    ensures s.enc.pc.Select? ==> (CanEncode(s, OnError) <==> s.ch.errs != [])
    ensures CaptureBlocked(s) ==> !s.cancelled || s.cap.pc.Done? || s.cap.pc.GiveBack? || s.cap.pc.GiveBackStale?
  {
    assert s.cap.pc.Tick? || s.cap.pc.LockGate? ==> (CanCapture(s, OnCancel) <==> s.cancelled);
    assert CanCapture(s, Proceed) || s.cap.pc.LockGate? || s.cap.pc.Done? || s.cap.pc.GiveBack? || s.cap.pc.GiveBackStale?;
  }

  /** On its way out because it saw the cancellation. */
  predicate WindingUp(s: State) { s.cap.pc.CloseFrames? || s.cap.pc.Done? }

  lemma {:induction false} WindingUpStays(s: State, run: seq<Action>)
    requires WindingUp(s) && ValidRun(s, run)
    ensures WindingUp(Exec(s, run))
    ensures Exec(s, run).log.grabs == s.log.grabs && Exec(s, run).log.published == s.log.published
    decreases |run|
  {
    if run != [] {
      var s1 := Step(s, run[0]);
      assert WindingUp(s1) && s1.log.grabs == s.log.grabs && s1.log.published == s.log.published;
      WindingUpStays(s1, run[1..]);
    }
  }

  /** Once the capture side has seen the cancellation, at its ticker, at the gate or at the head of its loop, it grabs
      nothing and publishes nothing any more. */
  lemma SeenIsTheEnd(s: State, pick: Pick, run: seq<Action>)
    requires CanCapture(s, pick) && (pick.OnCancel? || (s.cap.pc.Check? && s.cancelled))
    requires ValidRun(CaptureNext(s, pick), run)
    ensures var t := Exec(CaptureNext(s, pick), run); t.log.grabs == s.log.grabs && t.log.published == s.log.published
  {
    WindingUpStays(CaptureNext(s, pick), run);
  }

  /** `acquire`, left alone, comes back empty-handed exactly when nothing is free and nothing is pending; a free buffer
      is taken before the pending frame, and that only at the cost of the frame. */
  lemma AcquireIff(s: State)
    requires LocalsAgree(s) && s.cap.pc.TryFree?
    ensures var t := CaptureNext(s, Proceed);
            s.ch.free != [] ==> t.cap.pc.Convert? && t.cap.buf == Some(s.ch.free[0]) && t.ch.frames == s.ch.frames
    ensures s.ch.free == [] ==>
              var t := CaptureNext(s, Proceed);
              && t.cap.pc.TryPending? && t.ch == s.ch
              && var u := CaptureNext(t, Proceed);
              if s.ch.frames == [] then u.cap.buf == None && u.cap.pc.Tick?
              else u.cap.buf == Some(s.ch.frames[0]) && u.ch.frames == s.ch.frames[1..] && u.cap.pc.Convert? &&
                   u.log.discarded == s.log.discarded + 1
  {
  }

  // ----- A failed grab -----

  /** The failures of the grabs of a run, in order. */
  function FailuresOf(run: seq<Action>): seq<Failure>
    decreases |run|
  {
    if run == [] then []
    else if run[0].Capture? && run[0].pick.GrabFails? then [run[0].pick.err] + FailuresOf(run[1..])
    else FailuresOf(run[1..])
  }

  /** The failure on its way from the grab to the channel. */
  function OnItsWay(s: State): seq<Failure> {
    if (s.cap.pc.Unlock? || s.cap.pc.Fail?) && s.cap.outcome.Some? then [s.cap.outcome.value] else []
  }

  function Reported(s: State): seq<Failure> {
    if s.log.ended.Some? && s.log.ended.value.Failed? then [s.log.ended.value.err] else []
  }

  /** The stages a failure goes through, oldest first. */
  function Stages(s: State): seq<Failure> { Reported(s) + s.ch.errs + OnItsWay(s) }

  /** A grab has begun that is neither a capture nor a failure yet. */
  predicate UnderWay(s: State) { s.cap.pc.Grabbing? || (s.cap.pc.Unlock? && s.cap.outcome.None?) }

  ghost predicate EndingsAgree(s: State) {
    && (s.log.ended.Some? <==> s.enc.pc.Stopped?)
    && (s.log.ended == Some(EndOfStream) ==> s.cancelled || s.ch.closed)
    && s.log.grabs == s.cap.shot + |Stages(s)| + (if UnderWay(s) then 1 else 0)
    && |Stages(s)| <= 1
    && (Reported(s) + s.ch.errs != [] ==> s.cap.pc.CloseFrames? || s.cap.pc.Done?)
  }

  predicate CarriesFailure(pc: CapturePc) { pc.Grabbing? || pc.Unlock? || pc.Fail? }

  lemma GrabKeepsFailures(s: State, pick: Pick)
    requires LocalsAgree(s) && ChannelsBounded(s) && EndingsAgree(s) && CanCapture(s, pick) && CarriesFailure(s.cap.pc)
    ensures EndingsAgree(CaptureNext(s, pick))
    ensures Stages(CaptureNext(s, pick)) == Stages(s) + FailuresOf([Capture(pick)])
  {
    assert [Capture(pick)][1..] == [];
  }

  lemma RestKeepsFailures(s: State, pick: Pick)
    requires EndingsAgree(s) && CanCapture(s, pick) && !CarriesFailure(s.cap.pc)
    ensures EndingsAgree(CaptureNext(s, pick)) && Stages(CaptureNext(s, pick)) == Stages(s)
    ensures FailuresOf([Capture(pick)]) == []
  {
    assert [Capture(pick)][1..] == [];
    var t := CaptureNext(s, pick);
    assert t.log.ended == s.log.ended && t.ch.errs == s.ch.errs && !t.cap.pc.Unlock? && !t.cap.pc.Fail?;
  }

  lemma CaptureKeepsFailures(s: State, pick: Pick)
    requires LocalsAgree(s) && ChannelsBounded(s) && EndingsAgree(s) && CanCapture(s, pick)
    ensures EndingsAgree(CaptureNext(s, pick))
    ensures Stages(CaptureNext(s, pick)) == Stages(s) + FailuresOf([Capture(pick)])
  {
    hide LocalsAgree, ChannelsBounded, EndingsAgree, CaptureNext, Stages;
    if CarriesFailure(s.cap.pc) { GrabKeepsFailures(s, pick); } else { RestKeepsFailures(s, pick); }
  }

  lemma EncodeKeepsFailures(s: State, pick: Pick)
    requires |s.ch.errs| <= 1 && EndingsAgree(s) && CanEncode(s, pick)
    ensures EndingsAgree(EncodeNext(s, pick)) && Stages(EncodeNext(s, pick)) == Stages(s)
    ensures FailuresOf([Encode(pick)]) == []
  {
    assert [Encode(pick)][1..] == [];
    var t := EncodeNext(s, pick);
    assert t.cap == s.cap && t.cancelled == s.cancelled && t.ch.closed == s.ch.closed;
  }

  lemma {:induction false} RunKeepsFailures(s: State, run: seq<Action>)
    requires Inv(s) && EndingsAgree(s) && ValidRun(s, run)
    ensures EndingsAgree(Exec(s, run)) && Stages(Exec(s, run)) == Stages(s) + FailuresOf(run)
    decreases |run|
  {
    if run != [] {
      hide Stages, EndingsAgree, LocalsAgree, ChannelsBounded;
      var s1 := Step(s, run[0]);
      StepKeepsInv(s, run[0]);
      match run[0] {
        case Capture(pick) => CaptureKeepsFailures(s, pick);
        case Encode(pick) => ErrsAreBounded(s); EncodeKeepsFailures(s, pick);
        case Cancel => CancelKeepsFailures(s);
      }
      RunKeepsFailures(s1, run[1..]);
      FirstFailure(run);
    }
  }

  lemma ErrsAreBounded(s: State)
    requires ChannelsBounded(s)
    ensures |s.ch.errs| <= 1
  {
  }

  lemma CancelKeepsFailures(s: State)
    requires EndingsAgree(s)
    ensures EndingsAgree(Step(s, Cancel)) && Stages(Step(s, Cancel)) == Stages(s) && FailuresOf([Cancel]) == []
  {
    assert [Cancel][1..] == [];
  }

  lemma FirstFailure(run: seq<Action>)
    requires run != []
    ensures FailuresOf(run) == FailuresOf([run[0]]) + FailuresOf(run[1..])
  {
    var one := [run[0]];
    assert one[1..] == [] && FailuresOf(one[1..]) == [];
  }

  predicate HasLeft(s: State) { s.enc.pc.Stopped? && s.log.ended == Some(Left) }

  lemma {:induction false} LeftIsQuit(s: State, run: seq<Action>)
    requires ValidRun(s, run) && (s.log.ended == Some(Left) ==> s.enc.pc.Stopped?)
    ensures HasLeft(Exec(s, run)) <==> HasLeft(s) || Encode(Quit) in run
    decreases |run|
  {
    if run != [] {
      var next := Step(s, run[0]);
      assert HasLeft(next) <==> HasLeft(s) || run[0] == Encode(Quit);
      LeftIsQuit(next, run[1..]);
      assert run == [run[0]] + run[1..];
    }
  }

  /** In every interleaving a failure is conserved: what the encoder was told, what waits for it, and what is on its way
      is exactly what the grabs of the run returned, at most one; every other grab is a capture of its own number, or
      under way; and a `read` reports the end of the stream only when the session is cancelled or the capture side has
      closed the frames channel. */
  lemma FailuresAreConserved(n: nat, run: seq<Action>)
    requires ValidRun(Init(n), run)
    ensures var s := Exec(Init(n), run);
            && Reported(s) + s.ch.errs + OnItsWay(s) == FailuresOf(run) && |FailuresOf(run)| <= 1
            && s.log.grabs == s.cap.shot + |FailuresOf(run)| + (if UnderWay(s) then 1 else 0)
            && (s.log.ended == Some(EndOfStream) ==> s.cancelled || s.ch.closed)
            && (s.enc.pc.Stopped? <==> s.log.ended.Some?) && (s.log.ended == Some(Left) <==> Encode(Quit) in run)
  {
    InitHolds(n);
    RunKeepsFailures(Init(n), run);
    LeftIsQuit(Init(n), run);
  }

  /** The encoder has stopped without ever receiving the failure waiting for it. */
  predicate Swallowed(s: State) { s.enc.pc.Stopped? && s.ch.errs != [] }

  /** Nobody cancels, and the encoder only leaves its loop because `read` failed. */
  predicate Undisturbed(run: seq<Action>) {
    forall i :: 0 <= i < |run| ==> run[i] != Cancel && run[i] != Encode(Quit)
  }

  /** A reader already waiting for a frame when there is none left to come. */
  predicate WaitsInVain(s: State) { s.enc.pc.Select? && s.ch.frames == [] }

  /** A failure is stored, and the reader has neither received it nor stopped, nor waits in vain. */
  ghost predicate Awaiting(s: State) {
    Inv(s) && !s.cancelled && s.ch.errs != [] && !s.enc.pc.Stopped? && !WaitsInVain(s)
  }

  /** The reader has stopped, and the stored failure is what it stopped with. */
  predicate Received(s: State) {
    s.enc.pc.Stopped? && s.ch.errs == [] && (s.cap.pc.CloseFrames? || s.cap.pc.Done?)
  }

  /** How many of its own steps the reader is from receiving a stored failure. */
  function StepsToFailure(pc: EncodePc): nat {
    match pc
    case Stopped => 0 case PollErr => 1 case Recycle => 2 case Release => 3 case Away => 4 case TakeGate => 5
    case Select => 6
  }

  function EncodeSteps(run: seq<Action>): nat
    decreases |run|
  {
    if run == [] then 0 else (if run[0].Encode? then 1 else 0) + EncodeSteps(run[1..])
  }

  lemma AwaitingStep(s: State, a: Action)
    requires Awaiting(s) && CanStep(s, a) && a != Cancel && a != Encode(Quit)
    ensures CanEncode(s, Proceed)
    ensures var s' := Step(s, a);
            && (Awaiting(s') || Received(s'))
            && StepsToFailure(s'.enc.pc) + (if a.Encode? then 1 else 0) <= StepsToFailure(s.enc.pc)
  {
    StepKeepsInv(s, a);
    hide Inv;
    AwaitingStays(s, a);
  }

  lemma AwaitingStays(s: State, a: Action)
    requires Rest(s) && !s.cancelled && s.ch.errs != [] && !s.enc.pc.Stopped? && !WaitsInVain(s)
    requires CanStep(s, a) && a != Cancel && a != Encode(Quit)
    ensures CanEncode(s, Proceed)
    ensures var s' := Step(s, a);
            && !s'.cancelled && (Received(s') || (s'.ch.errs != [] && !s'.enc.pc.Stopped? && !WaitsInVain(s')))
            && StepsToFailure(s'.enc.pc) + (if a.Encode? then 1 else 0) <= StepsToFailure(s.enc.pc)
  {
  }

  lemma {:induction false} ReceivedStays(s: State, run: seq<Action>)
    requires Received(s) && ValidRun(s, run)
    ensures Received(Exec(s, run)) && EncodeSteps(run) == 0
    decreases |run|
  {
    if run != [] {
      ReceivedStays(Step(s, run[0]), run[1..]);
    }
  }

  /** A stored failure the reader does not wait for in vain arrives: whatever the schedule, the reader is never
      blocked before it has it, and six of its own steps are enough. */
  lemma {:induction false} FailureArrives(s: State, run: seq<Action>)
    requires Awaiting(s) && ValidRun(s, run) && Undisturbed(run)
    ensures var s' := Exec(s, run);
            && (Received(s') || (Awaiting(s') && CanEncode(s', Proceed)))
            && EncodeSteps(run) + StepsToFailure(s'.enc.pc) <= StepsToFailure(s.enc.pc) <= 6
            && (EncodeSteps(run) == 6 ==> Received(s'))
    decreases |run|
  {
    if run == [] {
      AwaitingCanRead(s);
    } else {
      var s1 := Step(s, run[0]);
      AwaitingStep(s, run[0]);
      assert forall i :: 0 <= i < |run[1..]| ==> run[1..][i] == run[i + 1];
      if Awaiting(s1) { FailureArrives(s1, run[1..]); } else { ReceivedStays(s1, run[1..]); }
    }
  }

  lemma AwaitingCanRead(s: State)
    requires Awaiting(s)
    ensures CanEncode(s, Proceed)
  {
  }

  lemma ClosedChannelWins(s: State) returns (run: seq<Action>)
    requires Inv(s) && !s.cancelled && s.ch.errs != [] && WaitsInVain(s)
    ensures ValidRun(s, run) && Undisturbed(run) && Swallowed(Exec(s, run))
  {
    run := if s.cap.pc.Done? then [] else [Capture(Proceed)];
    var s1 := Exec(s, run);
    Extend(s, run, Encode(Proceed));
    run := run + [Encode(Proceed)];
  }

  /** A run in which the reader is never blocked short of the failure, and has it after six of its own steps. */
  ghost predicate Arrives(s: State, run: seq<Action>)
    requires ValidRun(s, run)
  {
    && (Received(Exec(s, run)) || CanEncode(Exec(s, run), Proceed))
    && EncodeSteps(run) <= 6 && (EncodeSteps(run) == 6 ==> Received(Exec(s, run)))
  }

  /** A stored grab failure is certain to reach the encoder as that error, and within six steps of its own, exactly
      when the reader is not already waiting at its `select` with no frame pending; there the closed frames channel
      may win, and the failure reads as an ordinary end of stream. */
  lemma FailureSurfacesUnlessReaderWaits(s: State)
    requires Inv(s) && !s.cancelled && s.ch.errs != [] && !s.enc.pc.Stopped?
    ensures (forall run :: ValidRun(s, run) && Undisturbed(run) ==> !Swallowed(Exec(s, run))) <==> !WaitsInVain(s)
    ensures (forall run :: ValidRun(s, run) && Undisturbed(run) ==> Arrives(s, run)) <==> !WaitsInVain(s)
  {
    if WaitsInVain(s) {
      var run := ClosedChannelWins(s);
      assert !Arrives(s, run);
    } else {
      forall run | ValidRun(s, run) && Undisturbed(run) ensures !Swallowed(Exec(s, run)) && Arrives(s, run) {
        FailureArrives(s, run);
      }
    }
  }

  /** From the ticker, with the token there: a grab that fails, up to the failure being stored. */
  lemma FailLap(s: State, run: seq<Action>) returns (r: seq<Action>)
    requires ValidRun(s, run) && Exec(s, run).cap.pc.Tick? && Exec(s, run).ch.gate == 1 && Exec(s, run).ch.errs == []
    ensures ValidRun(s, r)
    ensures var e := Exec(s, run); var e' := Exec(s, r);
            e'.enc == e.enc && e'.cancelled == e.cancelled && e'.ch == e.ch.(errs := [GrabFailed])
  {
    r := Go(s, run, Capture(Proceed));
    r := Go(s, r, Capture(Proceed));
    r := Go(s, r, Capture(GrabFails(GrabFailed)));
    r := Go(s, r, Capture(Proceed));
    r := Go(s, r, Capture(Proceed));
  }

  /** That state is reachable, so a failed grab really can be reported as the end of the stream. */
  lemma FailureMayLookLikeTheEnd() returns (r: seq<Action>)
    ensures ValidRun(Init(3), r)
    ensures var s := Exec(Init(3), r); WaitsInVain(s) && s.ch.errs != [] && !s.cancelled
  {
    var s := Init(3);
    r := PublishLap(s, []);
    r := FirstRead(s, r);
    r := Go(s, r, Encode(Proceed));
    r := Go(s, r, Encode(Proceed));
    r := Go(s, r, Encode(Proceed));
    r := Go(s, r, Encode(Proceed));
    r := FailLap(s, r);
  }
}
