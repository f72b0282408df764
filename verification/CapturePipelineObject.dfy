/** The pipeline as the object it is: channels, goroutine locals and frame buffers updated in place. Each
    method is one atomic step of one goroutine, proved to be the step of the protocol in CapturePipeline. */
module CapturePipelineObject {
  import opened Basics
  import opened Counting
  import opened CapturePipeline

  lemma RunLeavesDelivered(s: State, pick: Pick)
    requires CanCapture(s, pick) && (s.cap.buf.Some? ==> s.enc.inFlight != s.cap.buf)
    ensures CaptureNext(s, pick).enc == s.enc
    ensures Look(CaptureNext(s, pick).pixels, s.enc.inFlight) == Look(s.pixels, s.enc.inFlight)
  {
  }

  class Pipeline {
    const pixels: array<Pixels>

    var free: seq<Buffer>
    var frames: seq<Buffer>
    var framesClosed: bool
    var errCh: seq<Failure>
    var gate: nat
    var cancelled: bool

    // run's locals
    var runPc: CapturePc
    var runBuf: Option<Buffer>
    var runStale: Option<Buffer>
    var runOutcome: Option<Failure>
    var frame: nat

    // read's locals and the encoder's fields
    var readPc: EncodePc
    var readBuf: Option<Buffer>
    var inFlight: Option<Buffer>
    var holdsGate: bool

    ghost var log: History

    ghost function View(): State
      reads this, pixels
    {
      State(pixels.Length, Channels(free, frames, framesClosed, errCh, gate),
            Capturer(runPc, runBuf, runStale, runOutcome, frame),
            Encoder(readPc, readBuf, inFlight, holdsGate), cancelled, pixels[..], log)
    }

    constructor (pipelineBuffers: nat)
      ensures View() == Init(pipelineBuffers) && Inv(View()) && fresh(pixels)
    {
      pixels := new Pixels[pipelineBuffers](_ => Blank);
      frames, framesClosed, errCh, gate, cancelled := [], false, [], 0, false;
      runPc, runBuf, runStale, runOutcome, frame := Check, None, None, None, 0;
      readPc, readBuf, inFlight, holdsGate := Away, None, None, false;
      log := History(0, [], -1, 0, [], 0, None);
      free := [];
      new;
      for i := 0 to pipelineBuffers
        invariant free == UpTo(i)
        invariant View() == Init(pipelineBuffers).(ch := Channels(free, [], false, [], 0))
      {
        free := free + [i];
      }
      gate := gate + 1;
      InitHolds(pipelineBuffers);
    }

    method Cancel()
      requires Inv(View())
      modifies this`cancelled
      ensures View() == old(View()).(cancelled := true) && Inv(View())
    {
      StepKeepsInv(View(), CapturePipeline.Cancel);
      cancelled := true;
    }

    method UnlockGate()
      modifies this`gate
      ensures View() == old(View()).(ch := PutToken(old(View()).ch))
    {
      if gate < 1 {
        gate := gate + 1;
      }
    }

    /** `b` is neither pending nor in the encoder's hands. */
    predicate Private(b: Option<Buffer>)
      reads this
    {
      b.Some? ==> b != inFlight && b != readBuf && b.value !in frames
    }

    /** Writes to a frame buffer; it must be nobody else's, and the encoder's keeps its pixels. */
    method Paint(b: Option<Buffer>, p: Pixels)
      requires Private(b)
      modifies pixels
      ensures View() == old(View()).(pixels := Write(old(pixels[..]), b, p))
      ensures Look(pixels[..], inFlight) == old(Look(pixels[..], inFlight))
    {
      if b.Some? && b.value < pixels.Length {
        pixels[b.value] := p;
      }
    }

    /** `convert` writing the buffer acquired: begun, then done. */
    method ConvertStep()
      requires runPc.Convert? || runPc.Converting?
      requires Private(runBuf)
      modifies this`runPc, pixels
      ensures View() == CaptureNext(old(View()), Proceed)
      ensures Look(pixels[..], inFlight) == old(Look(pixels[..], inFlight))
      ensures runBuf.Some? && runBuf.value < pixels.Length ==>
                pixels[runBuf.value] == if old(runPc).Convert? then Torn else Frame(frame)
    {
      if runPc.Convert? {
        Paint(runBuf, Torn);
        runPc := Converting;
      } else {
        Paint(runBuf, Frame(frame));
        runPc := Drain;
      }
    }

    /** One channel operation of `acquire`. */
    method AcquireStep()
      requires runPc.TryFree? || runPc.TryPending?
      modifies this
      ensures View() == CaptureNext(old(View()), Proceed)
    {
      if runPc.TryFree? {
        if free != [] {
          runBuf, free, runPc := Some(free[0]), free[1..], Convert;
        } else {
          runPc := TryPending;
        }
      } else if frames != [] {
        runBuf, frames, runPc := Some(frames[0]), frames[1..], Convert;
        log := log.(discarded := log.discarded + 1);
      } else {
        runPc := Tick;
      }
    }

    /** One channel operation of `publish`. */
    method PublishStep()
      requires runPc.Drain? || runPc.GiveBackStale? || runPc.Offer? || runPc.GiveBack?
      requires CanCapture(View(), Proceed)
      modifies this
      ensures View() == CaptureNext(old(View()), Proceed)
    {
      match runPc
      case Drain =>
        if frames != [] {
          runStale, frames, runPc := Some(frames[0]), frames[1..], GiveBackStale;
          log := log.(discarded := log.discarded + 1);
        } else {
          runPc := Offer;
        }
      case GiveBackStale =>
        free := free + One(runStale);
        runStale, runPc := None, Offer;
      case Offer =>
        if |frames| < 1 {
          frames := frames + One(runBuf);
          runBuf, runPc := None, Tick;
          log := log.(published := log.published + 1, newest := frame);
        } else {
          runPc := GiveBack;
        }
      case GiveBack =>
        free := free + One(runBuf);
        runBuf, runPc := None, Tick;
    }

    /** The grab, between taking the token and giving it back. */
    method GrabStep(pick: Pick)
      requires (runPc.LockGate? || runPc.Grabbing? || runPc.Unlock?) && CanCapture(View(), pick)
      modifies this
      ensures View() == CaptureNext(old(View()), pick)
    {
      match runPc
      case LockGate =>
        if pick.Proceed? {
          gate, runPc := gate - 1, Grabbing;
          log := log.(grabs := log.grabs + 1);
        } else {
          runPc := CloseFrames;
        }
      case Grabbing =>
        runOutcome := if pick.Proceed? then None else Some(pick.err);
        runPc := Unlock;
      case Unlock =>
        UnlockGate();
        if runOutcome.None? {
          frame, runPc := frame + 1, Check;
        } else {
          runPc := Fail;
        }
    }

    /** One step of `run`, with `fail` inlined. */
    method RunBody(pick: Pick)
      requires CanCapture(View(), pick) && Private(runBuf)
      modifies this, pixels
      ensures View() == CaptureNext(old(View()), pick)
    {
      if runPc.Convert? || runPc.Converting? {
        ConvertStep();
        return;
      }
      if runPc.LockGate? || runPc.Grabbing? || runPc.Unlock? {
        GrabStep(pick);
        return;
      }
      if runPc.TryFree? || runPc.TryPending? {
        AcquireStep();
        return;
      }
      if runPc.Drain? || runPc.GiveBackStale? || runPc.Offer? || runPc.GiveBack? {
        PublishStep();
        return;
      }
      match runPc
      case Check => runPc := if cancelled then CloseFrames else TryFree;
      case Tick => runPc := if pick.Proceed? then LockGate else CloseFrames;
      case Fail =>
        if |errCh| < 1 && runOutcome.Some? {
          errCh := errCh + [runOutcome.value];
        }
        runPc := CloseFrames;
      case CloseFrames =>
        framesClosed, runPc := true, Done;
    }

    /** One step of `run` in any reachable state: it keeps the invariant, never writes to a buffer that is pending
        or with the encoder, and so leaves the delivered frame as it is. */
    method RunStep(pick: Pick)
      requires Inv(View()) && CanCapture(View(), pick)
      modifies this, pixels
      ensures View() == CaptureNext(old(View()), pick) && Inv(View())
      ensures inFlight == old(inFlight) && Look(pixels[..], inFlight) == old(Look(pixels[..], inFlight))
    {
      ghost var s := View();
      StepKeepsInv(s, Capture(pick));
      if runBuf.Some? { ConverterIsAlone(s); }
      RunLeavesDelivered(s, pick);
      RunBody(pick);
    }

    /** The head of `read`: give the token back, then recycle the buffer just encoded. */
    method RecycleStep()
      requires readPc.Release? || readPc.Recycle?
      modifies this
      ensures View() == EncodeNext(old(View()), Proceed)
    {
      if readPc.Release? {
        if holdsGate {
          UnlockGate();
          holdsGate := false;
        }
        readPc := Recycle;
      } else {
        if |free| < pixels.Length {
          free := free + One(inFlight);
        } else {
          log := log.(lost := log.lost + One(inFlight));
        }
        inFlight, readPc := None, PollErr;
      }
    }

    /** The select that waits for a frame. */
    method ReceiveStep(pick: Pick)
      requires readPc.Select? && CanEncode(View(), pick)
      modifies this
      ensures View() == EncodeNext(old(View()), pick)
    {
      if pick.OnCancel? {
        readPc, log := Stopped, log.(ended := Some(EndOfStream));
      } else if pick.OnError? {
        errCh, readPc, log := errCh[1..], Stopped, log.(ended := Some(Failed(errCh[0])));
      } else if frames == [] {
        readPc, log := Stopped, log.(ended := Some(EndOfStream));
      } else {
        readBuf, frames, readPc := Some(frames[0]), frames[1..], TakeGate;
      }
    }

    /** A frame is in hand: take the token, then hand the frame over. */
    method TakeGateStep(pick: Pick)
      requires readPc.TakeGate? && CanEncode(View(), pick)
      modifies this
      ensures View() == EncodeNext(old(View()), pick)
    {
      if pick.Proceed? {
        log := log.(delivered := log.delivered + [Look(pixels[..], readBuf)]);
        gate, holdsGate, inFlight, readBuf, readPc := gate - 1, true, readBuf, None, Away;
      } else {
        log := log.(lost := log.lost + One(readBuf), ended := Some(EndOfStream));
        readBuf, readPc := None, Stopped;
      }
    }

    /** One step of `read`, or the encoder entering it, or leaving its loop for good; it keeps the invariant and
        writes to no frame. */
    method ReadStep(pick: Pick)
      requires Inv(View()) && CanEncode(View(), pick)
      modifies this
      ensures View() == EncodeNext(old(View()), pick) && Inv(View())
    {
      StepKeepsInv(View(), Encode(pick));
      match readPc
      case Away =>
        if pick.Proceed? {
          readPc := Release;
        } else {
          readPc, log := Stopped, log.(ended := Some(Left));
        }
      case Release => RecycleStep();
      case Recycle => RecycleStep();
      case PollErr =>
        if errCh != [] {
          errCh, readPc, log := errCh[1..], Stopped, log.(ended := Some(Failed(errCh[0])));
        } else {
          readPc := Select;
        }
      case Select => ReceiveStep(pick);
      case TakeGate => TakeGateStep(pick);
    }
  }
}
