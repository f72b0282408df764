/** The capture pipeline of the Windows agent: `run` (capture and colour conversion) and `read`
    (the encoder's pull) pass frame buffers through bounded channels on two goroutines.

    Every channel operation, and every other access to shared state, is one atomic step. Each side
    has a program counter and its own local variables, so a run of the system is an arbitrary
    interleaving of the two sides' steps with `Cancel`. Buffers are named by their index in `pixels`. */
module CapturePipeline {
  import opened Basics
  import opened Counting

  type Buffer = nat

  /** What a frame buffer holds: nothing yet, a half written image, or the given capture. */
  datatype Pixels = Blank | Torn | Frame(no: nat)

  datatype Failure = GrabFailed | UnexpectedPixelFormat

  datatype CapturePc =
    | Check | TryFree | TryPending | Convert | Converting
    | Drain | GiveBackStale | Offer | GiveBack
    | Tick | LockGate | Grabbing | Unlock | Fail | CloseFrames | Done

  /** `Away` is outside `read`; with `holdsGate` set the encoder is then encoding `inFlight`. */
  datatype EncodePc = Away | Release | Recycle | PollErr | Select | TakeGate | Stopped

  /** The capture goroutine: `buf` and `stale` are the buffers its local variables name, `outcome`
      the result of the last grab and `shot` the number of the capture in its local `frame`. */
  datatype Capturer = Capturer(
    pc: CapturePc, buf: Option<Buffer>, stale: Option<Buffer>, outcome: Option<Failure>, shot: nat)

  /** The encoder goroutine: `buf` is `read`'s local variable. */
  datatype Encoder = Encoder(pc: EncodePc, buf: Option<Buffer>, inFlight: Option<Buffer>, holdsGate: bool)

  datatype Channels = Channels(
    free: seq<Buffer>, frames: seq<Buffer>, closed: bool, errs: seq<Failure>, gate: nat)

  /** What the encoder's last `read` returned: the end of the stream, or a failure; or the encoder left by itself. */
  datatype Ending = EndOfStream | Failed(err: Failure) | Left

  /** What happened so far; no step reads it. `delivered` is what each successful `read` handed over,
      `newest` the last published capture (-1 for none), `discarded` counts the published frames that
      were overwritten, `lost` the buffers nobody owns any more, `grabs` the screen grabs begun. */
  datatype History = History(
    published: nat, delivered: seq<Pixels>, newest: int, discarded: nat, lost: seq<Buffer>, grabs: nat,
    ended: Option<Ending>)

  datatype State = State(
    size: nat, ch: Channels, cap: Capturer, enc: Encoder, cancelled: bool, pixels: seq<Pixels>, log: History)

  /** The alternative a `select` takes, or the result of a call the model cannot see into. */
  datatype Pick = Proceed | OnCancel | OnError | GrabFails(err: Failure) | Quit

  datatype Action = Capture(pick: Pick) | Encode(pick: Pick) | Cancel

  // ----- The two goroutines -----

  function Init(n: nat): State {
    State(n, Channels(UpTo(n), [], false, [], 1),
          Capturer(Check, None, None, None, 0), Encoder(Away, None, None, false),
          false, seq(n, _ => Blank), History(0, [], -1, 0, [], 0, None))
  }

  function One(o: Option<Buffer>): seq<Buffer> {
    if o.Some? then [o.value] else []
  }

  /** A non-blocking send of the gate token: a second token is dropped. */
  function PutToken(ch: Channels): Channels {
    ch.(gate := if ch.gate < 1 then ch.gate + 1 else ch.gate)
  }

  function Write(pixels: seq<Pixels>, b: Option<Buffer>, p: Pixels): seq<Pixels> {
    if b.Some? && b.value < |pixels| then pixels[b.value := p] else pixels
  }

  function Look(pixels: seq<Pixels>, b: Option<Buffer>): Pixels {
    if b.Some? && b.value < |pixels| then pixels[b.value] else Blank
  }

  predicate CanCapture(s: State, pick: Pick) {
    match s.cap.pc
    case GiveBackStale => pick.Proceed? && |s.ch.free| < s.size
    case GiveBack => pick.Proceed? && |s.ch.free| < s.size
    case Tick => pick.Proceed? || (pick.OnCancel? && s.cancelled)
    case LockGate => (pick.Proceed? && s.ch.gate > 0) || (pick.OnCancel? && s.cancelled)
    case Grabbing => pick.Proceed? || pick.GrabFails?
    case Done => false
    case _ => pick.Proceed?
  }

  function CaptureNext(s: State, pick: Pick): State
    requires CanCapture(s, pick)
  {
    var c := s.cap;
    match c.pc
    case Check => s.(cap := c.(pc := if s.cancelled then CloseFrames else TryFree))
    case TryFree =>
      if s.ch.free == [] then s.(cap := c.(pc := TryPending))
      else s.(ch := s.ch.(free := s.ch.free[1..]), cap := c.(pc := Convert, buf := Some(s.ch.free[0])))
    case TryPending =>
      if s.ch.frames == [] then s.(cap := c.(pc := Tick))
      else s.(ch := s.ch.(frames := s.ch.frames[1..]), cap := c.(pc := Convert, buf := Some(s.ch.frames[0])),
              log := s.log.(discarded := s.log.discarded + 1))
    case Convert => s.(pixels := Write(s.pixels, c.buf, Torn), cap := c.(pc := Converting))
    case Converting => s.(pixels := Write(s.pixels, c.buf, Frame(c.shot)), cap := c.(pc := Drain))
    case Drain =>
      if s.ch.frames == [] then s.(cap := c.(pc := Offer))
      else s.(ch := s.ch.(frames := s.ch.frames[1..]), cap := c.(pc := GiveBackStale, stale := Some(s.ch.frames[0])),
              log := s.log.(discarded := s.log.discarded + 1))
    case GiveBackStale => s.(ch := s.ch.(free := s.ch.free + One(c.stale)), cap := c.(pc := Offer, stale := None))
    case Offer =>
      if |s.ch.frames| >= 1 then s.(cap := c.(pc := GiveBack))
      else s.(ch := s.ch.(frames := s.ch.frames + One(c.buf)), cap := c.(pc := Tick, buf := None),
              log := s.log.(published := s.log.published + 1, newest := c.shot))
    case GiveBack => s.(ch := s.ch.(free := s.ch.free + One(c.buf)), cap := c.(pc := Tick, buf := None))
    case Tick => s.(cap := c.(pc := if pick.Proceed? then LockGate else CloseFrames))
    case LockGate =>
      if !pick.Proceed? then s.(cap := c.(pc := CloseFrames))
      else s.(ch := s.ch.(gate := s.ch.gate - 1), cap := c.(pc := Grabbing), log := s.log.(grabs := s.log.grabs + 1))
    case Grabbing => s.(cap := c.(pc := Unlock, outcome := if pick.Proceed? then None else Some(pick.err)))
    case Unlock =>
      s.(ch := PutToken(s.ch),
         cap := if c.outcome.None? then c.(pc := Check, shot := c.shot + 1) else c.(pc := Fail))
    case Fail =>
      s.(ch := s.ch.(errs := if |s.ch.errs| < 1 && c.outcome.Some? then s.ch.errs + [c.outcome.value] else s.ch.errs),
         cap := c.(pc := CloseFrames))
    case CloseFrames => s.(ch := s.ch.(closed := true), cap := c.(pc := Done))
  }

  predicate CanEncode(s: State, pick: Pick) {
    match s.enc.pc
    case Away => pick.Proceed? || pick.Quit?
    case Select =>
      || (pick.Proceed? && (s.ch.frames != [] || s.ch.closed))
      || (pick.OnCancel? && s.cancelled)
      || (pick.OnError? && s.ch.errs != [])
    case TakeGate => (pick.Proceed? && s.ch.gate > 0) || (pick.OnCancel? && s.cancelled)
    case Stopped => false
    case _ => pick.Proceed?
  }

  function EncodeNext(s: State, pick: Pick): State
    requires CanEncode(s, pick)
  {
    var e := s.enc;
    match e.pc
    case Away =>
      if pick.Proceed? then s.(enc := e.(pc := Release))
      else s.(enc := e.(pc := Stopped), log := s.log.(ended := Some(Left)))
    case Release =>
      s.(ch := if e.holdsGate then PutToken(s.ch) else s.ch, enc := e.(pc := Recycle, holdsGate := false))
    case Recycle =>
      if |s.ch.free| < s.size then
        s.(ch := s.ch.(free := s.ch.free + One(e.inFlight)), enc := e.(pc := PollErr, inFlight := None))
      else
        s.(enc := e.(pc := PollErr, inFlight := None), log := s.log.(lost := s.log.lost + One(e.inFlight)))
    case PollErr =>
      if s.ch.errs != [] then
        s.(ch := s.ch.(errs := s.ch.errs[1..]), enc := e.(pc := Stopped),
           log := s.log.(ended := Some(Failed(s.ch.errs[0]))))
      else s.(enc := e.(pc := Select))
    case Select =>
      if pick.OnCancel? then s.(enc := e.(pc := Stopped), log := s.log.(ended := Some(EndOfStream)))
      else if pick.OnError? then
        s.(ch := s.ch.(errs := s.ch.errs[1..]), enc := e.(pc := Stopped),
           log := s.log.(ended := Some(Failed(s.ch.errs[0]))))
      else if s.ch.frames == [] then s.(enc := e.(pc := Stopped), log := s.log.(ended := Some(EndOfStream)))
      else s.(ch := s.ch.(frames := s.ch.frames[1..]), enc := e.(pc := TakeGate, buf := Some(s.ch.frames[0])))
    case TakeGate =>
      if pick.Proceed? then
        s.(ch := s.ch.(gate := s.ch.gate - 1), enc := Encoder(Away, None, e.buf, true),
           log := s.log.(delivered := s.log.delivered + [Look(s.pixels, e.buf)]))
      else
        s.(enc := e.(pc := Stopped, buf := None),
           log := s.log.(lost := s.log.lost + One(e.buf), ended := Some(EndOfStream)))
  }

  predicate CanStep(s: State, a: Action) {
    match a
    case Capture(pick) => CanCapture(s, pick)
    case Encode(pick) => CanEncode(s, pick)
    case Cancel => true
  }

  function Step(s: State, a: Action): State
    requires CanStep(s, a)
  {
    match a
    case Capture(pick) => CaptureNext(s, pick)
    case Encode(pick) => EncodeNext(s, pick)
    case Cancel => s.(cancelled := true)
  }

  predicate ValidRun(s: State, run: seq<Action>)
    decreases |run|
  {
    run == [] || (CanStep(s, run[0]) && ValidRun(Step(s, run[0]), run[1..]))
  }

  function Exec(s: State, run: seq<Action>): State
    requires ValidRun(s, run)
    decreases |run|
  {
    if run == [] then s else Exec(Step(s, run[0]), run[1..])
  }

  // ----- Ownership -----

  function Is(b: Buffer, o: Option<Buffer>): nat { if o == Some(b) then 1 else 0 }

  /** In how many places `b` is: free, pending, with the converter, with the encoder, or lost. */
  ghost function Places(s: State, b: Buffer): nat {
    Times(s.ch.free, b) + Times(s.ch.frames, b) + Is(b, s.cap.buf) + Is(b, s.cap.stale) +
    Is(b, s.enc.buf) + Is(b, s.enc.inFlight) + Times(s.log.lost, b)
  }

  function Total(s: State): nat {
    |s.ch.free| + |s.ch.frames| + |One(s.cap.buf)| + |One(s.cap.stale)| +
    |One(s.enc.buf)| + |One(s.enc.inFlight)| + |s.log.lost|
  }

  /** Each of the buffers is in exactly one place, and there are no others. */
  ghost predicate Partitioned(s: State) {
    (forall b: Buffer :: Places(s, b) == if b < s.size then 1 else 0) && Total(s) == s.size
  }

  // ----- Invariant -----

  predicate HoldsBuffer(pc: CapturePc) {
    pc.Convert? || pc.Converting? || pc.Drain? || pc.GiveBackStale? || pc.Offer?
  }

  predicate LocalsAgree(s: State) {
    && (s.cap.buf.Some? <==> HoldsBuffer(s.cap.pc))
    && (s.cap.stale.Some? <==> s.cap.pc.GiveBackStale?)
    && !s.cap.pc.GiveBack?
    && (s.enc.buf.Some? <==> s.enc.pc.TakeGate?)
    && (s.enc.inFlight.Some? ==>
          s.enc.pc.Away? || s.enc.pc.Release? || s.enc.pc.Recycle? || s.enc.pc.Stopped?)
    && (s.cap.pc.Fail? ==> s.cap.outcome.Some?)
  }

  predicate ChannelsBounded(s: State) {
    && |s.ch.frames| <= 1 && |s.ch.errs| <= 1 && |s.pixels| == s.size
    && (s.cap.pc.Offer? || s.cap.pc.GiveBackStale? ==> s.ch.frames == [])
    && (s.ch.closed <==> s.cap.pc.Done?)
    && (s.ch.errs != [] ==> s.cap.pc.CloseFrames? || s.cap.pc.Done?)
    && |s.log.lost| <= 1
    && (s.log.lost != [] ==> s.cancelled && s.enc.pc.Stopped? && s.enc.inFlight.None?)
  }

  predicate TokenConserved(s: State) {
    && s.ch.gate + (if s.enc.holdsGate then 1 else 0) +
       (if s.cap.pc.Grabbing? || s.cap.pc.Unlock? then 1 else 0) == 1
    && (s.enc.holdsGate ==> s.enc.pc.Away? || s.enc.pc.Release? || s.enc.pc.Stopped?)
    && (s.enc.pc.Away? || s.enc.pc.Release? ==> (s.enc.holdsGate <==> s.enc.inFlight.Some?))
  }

  /** The capture number a complete buffer shows, or -2 for a buffer that shows none. */
  function Shows(s: State, b: Option<Buffer>): int {
    var p := Look(s.pixels, b);
    if p.Frame? then p.no else -2
  }

  function LastDelivered(s: State): int {
    var d := s.log.delivered;
    if d != [] && d[|d| - 1].Frame? then d[|d| - 1].no else -1
  }

  /** The capture in hand has not been published yet. */
  predicate Unpublished(pc: CapturePc) {
    pc.Check? || pc.TryFree? || pc.TryPending? || HoldsBuffer(pc)
  }

  /** Whole captures only, each strictly newer than the one before. */
  predicate Increasing(d: seq<Pixels>) {
    && (forall i :: 0 <= i < |d| ==> d[i].Frame?)
    && (forall i, j :: 0 <= i < j < |d| ==> d[i].Frame? && d[j].Frame? && d[i].no < d[j].no)
  }

  predicate Fresh(s: State) {
    && -1 <= LastDelivered(s) <= s.log.newest <= s.cap.shot
    && (Unpublished(s.cap.pc) ==> s.log.newest < s.cap.shot)
    && (s.ch.frames != [] ==> LastDelivered(s) < Shows(s, Some(s.ch.frames[0])) == s.log.newest)
    && (s.enc.pc.TakeGate? ==> LastDelivered(s) < Shows(s, s.enc.buf) <= s.log.newest)
    && (s.enc.pc.TakeGate? && s.ch.frames != [] ==> Shows(s, s.enc.buf) < s.log.newest)
    && (s.enc.inFlight.Some? ==> s.log.delivered != [] && Shows(s, s.enc.inFlight) == LastDelivered(s))
    && (s.cap.pc.Drain? || s.cap.pc.GiveBackStale? || s.cap.pc.Offer? ==> Shows(s, s.cap.buf) == s.cap.shot)
  }

  predicate Accounted(s: State) {
    s.log.published == |s.log.delivered| + s.log.discarded + |s.ch.frames| + |One(s.enc.buf)| + |s.log.lost|
  }

  predicate Rest(s: State) {
    LocalsAgree(s) && ChannelsBounded(s) && TokenConserved(s) && Fresh(s) && Increasing(s.log.delivered) && Accounted(s)
  }

  ghost predicate Inv(s: State) {
    Partitioned(s) && Rest(s)
  }

  lemma InitHolds(n: nat)
    ensures Inv(Init(n))
  {
    forall b: Buffer ensures Times(UpTo(n), b) == if b < n then 1 else 0 { BuffersOnce(n, b); }
  }

  lemma {:induction false} BuffersOnce(n: nat, b: Buffer)
    ensures Times(UpTo(n), b) == if b < n then 1 else 0
  {
    if n > 0 {
      BuffersOnce(n - 1, b);
      TailArrives(UpTo(n - 1), Some(n - 1), b);
      assert UpTo(n) == UpTo(n - 1) + One(Some(n - 1));
    } else {
      assert UpTo(n) == [];
    }
  }

  lemma {:induction false} TailArrives(q: seq<Buffer>, x: Option<Buffer>, b: Buffer)
    ensures Times(q + One(x), b) == Times(q, b) + Is(b, x)
  {
    if q == [] {
      assert q + One(x) == One(x);
    } else {
      TailArrives(q[1..], x, b);
      assert (q + One(x))[1..] == q[1..] + One(x);
    }
  }

  // ----- Every step keeps the invariant -----

  lemma CaptureMovesBuffer(s: State, pick: Pick, b: Buffer)
    requires CanCapture(s, pick) && LocalsAgree(s)
    ensures Places(CaptureNext(s, pick), b) == Places(s, b)
  {
    match s.cap.pc
    case GiveBackStale => TailArrives(s.ch.free, s.cap.stale, b);
    case GiveBack => TailArrives(s.ch.free, s.cap.buf, b);
    case Offer => TailArrives(s.ch.frames, s.cap.buf, b);
    case _ =>
  }

  lemma CaptureKeepsTotal(s: State, pick: Pick)
    requires CanCapture(s, pick) && LocalsAgree(s)
    ensures Total(CaptureNext(s, pick)) == Total(s)
  {
  }

  lemma RecycleMovesBuffer(s: State, b: Buffer)
    requires s.enc.pc.Recycle?
    ensures Places(EncodeNext(s, Proceed), b) == Places(s, b)
  {
    if |s.ch.free| < s.size {
      TailArrives(s.ch.free, s.enc.inFlight, b);
    } else {
      TailArrives(s.log.lost, s.enc.inFlight, b);
    }
  }

  lemma EncodeMovesBuffer(s: State, pick: Pick, b: Buffer)
    requires CanEncode(s, pick) && LocalsAgree(s)
    ensures Places(EncodeNext(s, pick), b) == Places(s, b)
  {
    if s.enc.pc.Recycle? { RecycleMovesBuffer(s, b); }
    else if s.enc.pc.TakeGate? { TailArrives(s.log.lost, s.enc.buf, b); }
  }

  lemma EncodeKeepsTotal(s: State, pick: Pick)
    requires CanEncode(s, pick) && LocalsAgree(s)
    ensures Total(EncodeNext(s, pick)) == Total(s)
  {
  }

  /** The buffer being written is nobody else's. */
  lemma ConverterIsAlone(s: State)
    requires Partitioned(s) && ChannelsBounded(s) && s.cap.buf.Some?
    ensures s.cap.buf.value < s.size && s.cap.buf.value !in s.ch.frames
    ensures s.enc.inFlight != s.cap.buf && s.enc.buf != s.cap.buf
  {
    assert Places(s, s.cap.buf.value) == 1;
    if s.ch.frames != [] { assert Places(s, s.ch.frames[0]) <= 1; }
  }

  lemma ConvertKeepsShape(s: State, pick: Pick)
    requires Inv(s) && CanCapture(s, pick) && HoldsBuffer(s.cap.pc)
    ensures LocalsAgree(CaptureNext(s, pick)) && ChannelsBounded(CaptureNext(s, pick))
  {
  }

  lemma CaptureKeepsShape(s: State, pick: Pick)
    requires Inv(s) && CanCapture(s, pick)
    ensures LocalsAgree(CaptureNext(s, pick)) && ChannelsBounded(CaptureNext(s, pick))
  {
    if HoldsBuffer(s.cap.pc) { ConvertKeepsShape(s, pick); }
  }

  lemma CaptureKeepsCounts(s: State, pick: Pick)
    requires LocalsAgree(s) && ChannelsBounded(s) && TokenConserved(s) && Accounted(s) && CanCapture(s, pick)
    ensures TokenConserved(CaptureNext(s, pick)) && Accounted(CaptureNext(s, pick))
  {
  }

  lemma ConvertKeepsFresh(s: State, pick: Pick)
    requires Inv(s) && CanCapture(s, pick) && HoldsBuffer(s.cap.pc)
    ensures Fresh(CaptureNext(s, pick))
  {
    ConverterIsAlone(s);
  }

  lemma AcquireKeepsFresh(s: State, pick: Pick)
    requires LocalsAgree(s) && ChannelsBounded(s) && Fresh(s) && CanCapture(s, pick)
    requires Unpublished(s.cap.pc) && !HoldsBuffer(s.cap.pc)
    ensures Fresh(CaptureNext(s, pick))
  {
  }

  lemma GrabKeepsFresh(s: State, pick: Pick)
    requires LocalsAgree(s) && Fresh(s) && CanCapture(s, pick) && !Unpublished(s.cap.pc)
    ensures Fresh(CaptureNext(s, pick))
  {
  }

  lemma CaptureKeepsFresh(s: State, pick: Pick)
    requires Inv(s) && CanCapture(s, pick)
    ensures Fresh(CaptureNext(s, pick)) && CaptureNext(s, pick).log.delivered == s.log.delivered
  {
    if HoldsBuffer(s.cap.pc) { ConvertKeepsFresh(s, pick); }
    else if Unpublished(s.cap.pc) { AcquireKeepsFresh(s, pick); }
    else { GrabKeepsFresh(s, pick); }
  }

  lemma EncodeKeepsShape(s: State, pick: Pick)
    requires LocalsAgree(s) && ChannelsBounded(s) && Total(s) == s.size && CanEncode(s, pick)
    ensures LocalsAgree(EncodeNext(s, pick)) && ChannelsBounded(EncodeNext(s, pick))
  {
  }

  lemma EncodeKeepsCounts(s: State, pick: Pick)
    requires LocalsAgree(s) && ChannelsBounded(s) && TokenConserved(s) && Accounted(s) && Total(s) == s.size
    requires CanEncode(s, pick)
    ensures TokenConserved(EncodeNext(s, pick)) && Accounted(EncodeNext(s, pick))
  {
  }

  lemma DeliveryKeepsFresh(s: State)
    requires Inv(s) && CanEncode(s, Proceed) && s.enc.pc.TakeGate?
    ensures Fresh(EncodeNext(s, Proceed)) && Increasing(EncodeNext(s, Proceed).log.delivered)
  {
    var d := s.log.delivered;
    assert forall i :: 0 <= i < |d| - 1 ==> d[i].Frame? && d[|d| - 1].Frame? && d[i].no < d[|d| - 1].no;
  }

  lemma ReceiveKeepsFresh(s: State, pick: Pick)
    requires Inv(s) && CanEncode(s, pick) && s.enc.pc.Select?
    ensures Fresh(EncodeNext(s, pick)) && EncodeNext(s, pick).log.delivered == s.log.delivered
  {
  }

  lemma ReadKeepsFresh(s: State, pick: Pick)
    requires Inv(s) && CanEncode(s, pick) && !s.enc.pc.TakeGate?
    ensures Fresh(EncodeNext(s, pick)) && EncodeNext(s, pick).log.delivered == s.log.delivered
  {
    if s.enc.pc.Select? { ReceiveKeepsFresh(s, pick); }
  }

  lemma EncodeKeepsFresh(s: State, pick: Pick)
    requires Inv(s) && CanEncode(s, pick)
    ensures Fresh(EncodeNext(s, pick)) && Increasing(EncodeNext(s, pick).log.delivered)
  {
    if !s.enc.pc.TakeGate? { ReadKeepsFresh(s, pick); }
    else if pick.Proceed? { DeliveryKeepsFresh(s); }
  }

  lemma CaptureKeepsPartition(s: State, pick: Pick)
    requires Partitioned(s) && CanCapture(s, pick) && LocalsAgree(s)
    ensures Partitioned(CaptureNext(s, pick)) && CaptureNext(s, pick).size == s.size
  {
    hide Places, Total, CanCapture, LocalsAgree;
    forall b: Buffer ensures Places(CaptureNext(s, pick), b) == Places(s, b) { CaptureMovesBuffer(s, pick, b); }
    CaptureKeepsTotal(s, pick);
  }

  lemma EncodeKeepsPartition(s: State, pick: Pick)
    requires Partitioned(s) && CanEncode(s, pick) && LocalsAgree(s)
    ensures Partitioned(EncodeNext(s, pick)) && EncodeNext(s, pick).size == s.size
  {
    hide Places, Total, CanEncode, LocalsAgree;
    forall b: Buffer ensures Places(EncodeNext(s, pick), b) == Places(s, b) { EncodeMovesBuffer(s, pick, b); }
    EncodeKeepsTotal(s, pick);
  }

  lemma CancelKeepsInv(s: State)
    requires Inv(s)
    ensures Inv(Step(s, Cancel))
  {
    assert forall b: Buffer :: Places(Step(s, Cancel), b) == Places(s, b);
  }

  lemma StepKeepsInv(s: State, a: Action)
    requires Inv(s) && CanStep(s, a)
    ensures Inv(Step(s, a))
  {
    hide Places, Total, LocalsAgree, ChannelsBounded, TokenConserved, Fresh, Increasing, Accounted;
    hide CanCapture, CanEncode, CaptureNext, EncodeNext;
    match a
    case Capture(pick) =>
      CaptureKeepsPartition(s, pick);
      CaptureKeepsShape(s, pick);
      CaptureKeepsCounts(s, pick);
      CaptureKeepsFresh(s, pick);
    case Encode(pick) =>
      EncodeKeepsPartition(s, pick);
      EncodeKeepsShape(s, pick);
      EncodeKeepsCounts(s, pick);
      EncodeKeepsFresh(s, pick);
    case Cancel =>
      CancelKeepsInv(s);
  }

  lemma {:induction false} RunKeepsInv(s: State, run: seq<Action>)
    requires Inv(s) && ValidRun(s, run)
    ensures Inv(Exec(s, run))
    decreases |run|
  {
    if run != [] {
      StepKeepsInv(s, run[0]);
      RunKeepsInv(Step(s, run[0]), run[1..]);
    }
  }

  /** What every reachable state satisfies, whatever the number of buffers. */
  lemma Reachable(n: nat, run: seq<Action>)
    requires ValidRun(Init(n), run)
    ensures Inv(Exec(Init(n), run)) && Exec(Init(n), run).size == n
  {
    InitHolds(n);
    RunKeepsInv(Init(n), run);
    SizeIsFixed(Init(n), run);
  }

  lemma {:induction false} SizeIsFixed(s: State, run: seq<Action>)
    requires ValidRun(s, run)
    ensures Exec(s, run).size == s.size
    decreases |run|
  {
    if run != [] {
      SizeIsFixed(Step(s, run[0]), run[1..]);
    }
  }
}
