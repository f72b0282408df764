/** `convert` spreads the row pairs over strided workers that share one destination. Whatever the number
    of workers and however their work interleaves, the frame they leave is the sequential specification. */
module ScalerWorkers {
  import opened Basics
  import opened Counting
  import opened Scaler
  import opened ScalerSpec

  /** The writes of a worker from row pair `p` on, in program order: every `workers`-th pair. */
  function Program(g: Geometry, workers: nat, p: nat): seq<Sample>
    requires workers > 0
    decreases g.RowPairs() - p
  {
    if p >= g.RowPairs() then [] else PairSamples(g, p, g.ChromaW()) + Program(g, workers, p + workers)
  }

  lemma MulMagnitude(d: int, k: int)
    requires d > 0
    ensures k == 0 ==> d * k == 0
    ensures k >= 1 ==> d * k >= d
    ensures k <= -1 ==> d * k <= -d
  {
  }

  /** Division with remainder is unique. */
  lemma SameQuotient(d: int, a: int, b: int, x: int, y: int)
    requires 0 <= x < d && 0 <= y < d && d * a + x == d * b + y
    ensures a == b && x == y
  {
    MulMagnitude(d, a - b);
    assert d * (a - b) == d * a - d * b;
  }

  lemma ResidueIsSmall(n: nat, d: nat)
    requires d > 0
    ensures n % d <= n && (n < d ==> n % d == n)
  {
  }

  lemma Unique(n: nat, k: nat, r: nat, d: nat)
    requires d > 0 && r < d && n == d * k + r
    ensures n % d == r
  {
    SameQuotient(d, n / d, k, n % d, r);
  }

  lemma ModAdd(p: nat, d: nat)
    requires d > 0
    ensures (p + d) % d == p % d
  {
    assert d * (p / d + 1) == d * (p / d) + d;
    Unique(p + d, p / d + 1, p % d, d);
  }

  /** A window of `d` numbers holds one of each residue. */
  lemma Window(q: nat, p: nat, d: nat)
    requires d > 0 && q % d == p % d && p <= q < p + d
    ensures q == p
  {
    assert d * (q / d - p / d) == d * (q / d) - d * (p / d);
    SameQuotient(d, q / d - p / d, 0, 0, q - p);
  }

  lemma {:induction false} ProgramOnce(g: Geometry, workers: nat, p: nat, s: Sample)
    requires workers > 0
    ensures Times(Program(g, workers, p), s) ==
            One(InFrame(g, s) && PairOf(s) >= p && PairOf(s) % workers == p % workers)
    decreases g.RowPairs() - p
  {
    if p < g.RowPairs() {
      ProgramOnce(g, workers, p + workers, s);
      PairOnce(g, p, g.ChromaW(), s);
      TimesJoin(PairSamples(g, p, g.ChromaW()), Program(g, workers, p + workers), s);
      ModAdd(p, workers);
      if InFrame(g, s) && PairOf(s) % workers == p % workers && p <= PairOf(s) < p + workers {
        Window(PairOf(s), p, workers);
      }
    }
  }

  /** The body of a worker's goroutine, alone: every `workers`-th pair from `start` on. Its stores are its program,
      each storing the specified value, whatever the frame held before. */
  method RunWorker(dst: Frame, src: Source, g: Geometry, workers: nat, start: nat)
    requires Covers(src, g) && dst.Valid(g) && dst.Faithful(g) && workers > 0
    modifies dst`log, dst.y.buf, dst.cb.buf, dst.cr.buf
    ensures dst.Faithful(g) && dst.log == old(dst.log) + Wanted(src, g, Program(g, workers, start))
  {
    hide PairSamples;
    ghost var log, past := dst.log, [];
    var pair := start;
    while pair < g.RowPairs()
      invariant Program(g, workers, start) == past + Program(g, workers, pair)
      invariant dst.Faithful(g) && dst.log == log + Wanted(src, g, past)
      decreases g.RowPairs() - pair
    {
      WantedJoins(src, g, past, PairSamples(g, pair, g.ChromaW()));
      ConvertRowPair(dst, src, g, pair);
      past := past + PairSamples(g, pair, g.ChromaW());
      pair := pair + workers;
    }
  }

  /** The strided split is a partition: each sample of the frame is written once, by the worker its row
      pair falls to and by no other, and nothing outside the frame is ever written. */
  lemma WrittenExactlyOnce(g: Geometry, workers: nat, w: nat, s: Sample)
    requires w < workers
    ensures Times(Program(g, workers, w), s) == if InFrame(g, s) && PairOf(s) % workers == w then 1 else 0
  {
    ProgramOnce(g, workers, w, s);
    ResidueIsSmall(w, workers);
    if InFrame(g, s) { ResidueIsSmall(PairOf(s), workers); }
  }

  // ----- Any interleaving of single stores -----

  /** Shared memory, and how many of its stores each worker has done. */
  datatype Progress = Progress(mem: map<Sample, Byte>, done: seq<nat>)

  function NothingDone(scripts: seq<seq<Write>>): Progress { Progress(map[], seq(|scripts|, _ => 0)) }

  predicate CanStore(scripts: seq<seq<Write>>, st: Progress, w: nat) {
    |st.done| == |scripts| && w < |scripts| && st.done[w] < |scripts[w]|
  }

  /** Worker `w` makes the next store of its script. */
  function StoreNext(scripts: seq<seq<Write>>, st: Progress, w: nat): Progress
    requires CanStore(scripts, st, w)
  {
    var store := scripts[w][st.done[w]];
    Progress(st.mem[store.s := store.v], st.done[w := st.done[w] + 1])
  }

  predicate ValidSchedule(scripts: seq<seq<Write>>, st: Progress, schedule: seq<nat>)
    decreases |schedule|
  {
    schedule == [] ||
    (CanStore(scripts, st, schedule[0]) && ValidSchedule(scripts, StoreNext(scripts, st, schedule[0]), schedule[1..]))
  }

  function Play(scripts: seq<seq<Write>>, st: Progress, schedule: seq<nat>): Progress
    requires ValidSchedule(scripts, st, schedule)
    decreases |schedule|
  {
    if schedule == [] then st else Play(scripts, StoreNext(scripts, st, schedule[0]), schedule[1..])
  }

  predicate Finished(scripts: seq<seq<Write>>, st: Progress) {
    |st.done| == |scripts| && forall w :: 0 <= w < |scripts| ==> st.done[w] >= |scripts[w]|
  }

  /** What each worker does when it is left alone, by RunWorker. */
  ghost predicate AreWorkers(src: Source, g: Geometry, scripts: seq<seq<Write>>) {
    |scripts| > 0 &&
    forall w :: 0 <= w < |scripts| ==> scripts[w] == Wanted(src, g, Program(g, |scripts|, w))
  }

  ghost predicate StoresLanded(src: Source, g: Geometry, scripts: seq<seq<Write>>, st: Progress) {
    && |st.done| == |scripts|
    && (forall w, k :: 0 <= w < |scripts| && 0 <= k < st.done[w] && k < |scripts[w]| ==> scripts[w][k].s in st.mem)
    && (forall s :: s in st.mem ==> InFrame(g, s) && st.mem[s] == Want(src, g, s))
  }

  lemma ScriptIsSpecified(src: Source, g: Geometry, scripts: seq<seq<Write>>, w: nat, k: nat)
    requires AreWorkers(src, g, scripts) && w < |scripts| && k < |scripts[w]|
    ensures InFrame(g, scripts[w][k].s) && scripts[w][k].v == Want(src, g, scripts[w][k].s)
  {
    var s := Program(g, |scripts|, w)[k];
    WrittenExactlyOnce(g, |scripts|, w, s);
    TimesZero(Program(g, |scripts|, w), s);
  }

  lemma StoreKeepsLanded(src: Source, g: Geometry, scripts: seq<seq<Write>>, st: Progress, w: nat)
    requires AreWorkers(src, g, scripts) && StoresLanded(src, g, scripts, st) && CanStore(scripts, st, w)
    ensures StoresLanded(src, g, scripts, StoreNext(scripts, st, w))
  {
    ScriptIsSpecified(src, g, scripts, w, st.done[w]);
  }

  lemma {:induction false} ScheduleKeepsLanded(
      src: Source, g: Geometry, scripts: seq<seq<Write>>, st: Progress, schedule: seq<nat>)
    requires AreWorkers(src, g, scripts) && ValidSchedule(scripts, st, schedule) && StoresLanded(src, g, scripts, st)
    ensures StoresLanded(src, g, scripts, Play(scripts, st, schedule))
    decreases |schedule|
  {
    if schedule != [] {
      StoreKeepsLanded(src, g, scripts, st, schedule[0]);
      ScheduleKeepsLanded(src, g, scripts, StoreNext(scripts, st, schedule[0]), schedule[1..]);
    }
  }

  /** However the single stores of the workers interleave, once all are through the memory is exactly the
      sequential specification: every sample of the frame with its value, and nothing else. The workers read
      only the source, so each makes the stores it would make alone. */
  lemma AnyInterleavingConverts(src: Source, g: Geometry, scripts: seq<seq<Write>>, schedule: seq<nat>)
    requires AreWorkers(src, g, scripts)
    requires ValidSchedule(scripts, NothingDone(scripts), schedule)
    requires Finished(scripts, Play(scripts, NothingDone(scripts), schedule))
    ensures var mem := Play(scripts, NothingDone(scripts), schedule).mem;
            forall s :: (s in mem <==> InFrame(g, s)) && (s in mem ==> mem[s] == Want(src, g, s))
  {
    var start := NothingDone(scripts);
    ScheduleKeepsLanded(src, g, scripts, start, schedule);
    var st := Play(scripts, start, schedule);
    forall s | InFrame(g, s) ensures s in st.mem {
      var w := PairOf(s) % |scripts|;
      WrittenExactlyOnce(g, |scripts|, w, s);
      TimesZero(Program(g, |scripts|, w), s);
      var k :| 0 <= k < |Program(g, |scripts|, w)| && Program(g, |scripts|, w)[k] == s;
      assert scripts[w][k].s == s && k < st.done[w];
    }
  }

  lemma StoreKeepsPlanes(mem: map<Sample, Byte>, log: seq<Write>, w: Write)
    requires forall s :: s in mem ==> Latest(log, s) == mem[s]
    ensures var mem' := mem[w.s := w.v]; forall s :: s in mem' ==> Latest(log + [w], s) == mem'[s]
  {
    forall s | s in mem[w.s := w.v] ensures Latest(log + [w], s) == mem[w.s := w.v][s] { LatestStore(log, w, s); }
  }

  /** The same in place: the single stores of the workers, in any order the schedule has them, on the byte planes they
      share. Whatever the planes held before, they end up as specified. */
  method PlayInPlace(dst: Frame, ghost src: Source, g: Geometry, scripts: seq<seq<Write>>, schedule: seq<nat>)
    requires dst.Valid(g) && dst.Faithful(g) && AreWorkers(src, g, scripts)
    requires ValidSchedule(scripts, NothingDone(scripts), schedule)
    requires Finished(scripts, Play(scripts, NothingDone(scripts), schedule))
    modifies dst`log, dst.y.buf, dst.cb.buf, dst.cr.buf
    ensures dst.Faithful(g) && forall s :: InFrame(g, s) ==> dst.Get(g, s) == Want(src, g, s)
  {
    hide AreWorkers, Want, Program;
    var st, i := NothingDone(scripts), 0;
    while i < |schedule|
      invariant i <= |schedule| && ValidSchedule(scripts, st, schedule[i..])
      invariant Play(scripts, st, schedule[i..]) == Play(scripts, NothingDone(scripts), schedule)
      invariant dst.Faithful(g) && forall s :: s in st.mem ==> Latest(dst.log, s) == st.mem[s]
    {
      var w := schedule[i];
      assert schedule[i..][0] == w && schedule[i..][1..] == schedule[i + 1..];
      var store := scripts[w][st.done[w]];
      ScriptIsSpecified(src, g, scripts, w, st.done[w]);
      StoreKeepsPlanes(st.mem, dst.log, store);
      dst.Store(g, store.s, store.v);
      st, i := StoreNext(scripts, st, w), i + 1;
    }
    assert schedule[i..] == [];
    AnyInterleavingConverts(src, g, scripts, schedule);
  }

  // ----- convert, in place -----

  function AllPairs(n: nat): (s: set<nat>)
    ensures forall p :: p in s <==> 0 <= p < n
  {
    if n == 0 then {} else AllPairs(n - 1) + {n - 1}
  }

  /** `next[w]` is the next pair of worker `w`, and `todo` the pairs no worker has done yet. */
  ghost predicate Strided(next: seq<nat>, todo: set<nat>, rowPairs: nat) {
    && |next| > 0
    && (forall w :: 0 <= w < |next| ==> next[w] % |next| == w)
    && (forall p :: p in todo <==> 0 <= p < rowPairs && p >= next[p % |next|])
  }

  lemma StrideBegins(workers: nat, rowPairs: nat)
    requires workers > 0
    ensures Strided(UpTo(workers), AllPairs(rowPairs), rowPairs)
  {
    var next := UpTo(workers);
    forall w | 0 <= w < workers ensures next[w] % workers == w { ResidueIsSmall(w, workers); }
    forall p: nat ensures p >= next[p % workers] { ResidueIsSmall(p, workers); }
  }

  lemma StrideStep(next: seq<nat>, todo: set<nat>, rowPairs: nat, w: nat, next': seq<nat>)
    requires Strided(next, todo, rowPairs) && w < |next| && next[w] < rowPairs
    requires next' == next[w := next[w] + |next|]
    ensures next[w] in todo && Strided(next', todo - {next[w]}, rowPairs)
  {
    var n := |next|;
    ModAdd(next[w], n);
    forall p: nat ensures p in todo - {next[w]} <==> p < rowPairs && p >= next'[p % n] {
      if p % n == w && next[w] <= p < next[w] + n { Window(p, next[w], n); }
    }
  }

  lemma StridesDone(next: seq<nat>, todo: set<nat>, rowPairs: nat)
    requires Strided(next, todo, rowPairs) && forall w :: 0 <= w < |next| ==> next[w] >= rowPairs
    ensures todo == {}
  {
  }

  /** By the stores so far, everything but the pairs still to do has its specified value. */
  ghost predicate DoneBut(log: seq<Write>, src: Source, g: Geometry, todo: set<nat>) {
    forall s :: InFrame(g, s) && PairOf(s) !in todo ==> Latest(log, s) == Want(src, g, s)
  }

  lemma OneMoreDone(log: seq<Write>, src: Source, g: Geometry, todo: set<nat>, p: nat)
    requires p < g.RowPairs() && DoneBut(log, src, g, todo)
    ensures DoneBut(log + Wanted(src, g, PairSamples(g, p, g.ChromaW())), src, g, todo - {p})
  {
    forall s | InFrame(g, s) && PairOf(s) !in todo - {p}
      ensures Latest(log + Wanted(src, g, PairSamples(g, p, g.ChromaW())), s) == Want(src, g, s)
    {
      PairStores(src, g, log, p, s);
    }
  }

  /** One turn of worker `w`'s loop: it converts its next pair, which nobody else has done. */
  method WorkerTurn(dst: Frame, src: Source, g: Geometry, next: seq<nat>, w: nat, ghost todo: set<nat>)
      returns (next': seq<nat>, ghost todo': set<nat>)
    requires Covers(src, g) && dst.Valid(g) && dst.Faithful(g) && Strided(next, todo, g.RowPairs())
    requires w < |next| && next[w] < g.RowPairs() && DoneBut(dst.log, src, g, todo)
    modifies dst`log, dst.y.buf, dst.cb.buf, dst.cr.buf
    ensures next' == next[w := next[w] + |next|] && Strided(next', todo', g.RowPairs())
    ensures next[w] in todo && todo' == todo - {next[w]}
    ensures dst.Faithful(g) && DoneBut(dst.log, src, g, todo')
  {
    next', todo' := next[w := next[w] + |next|], todo - {next[w]};
    StrideStep(next, todo, g.RowPairs(), w, next');
    OneMoreDone(dst.log, src, g, todo, next[w]);
    ConvertRowPair(dst, src, g, next[w]);
  }

  /** `convert`: any worker with pairs left may go next, until none has. */
  method Convert(dst: Frame, src: Source, g: Geometry, cpus: nat)
    requires Covers(src, g) && dst.Valid(g) && dst.Faithful(g) && cpus > 0
    modifies dst`log, dst.y.buf, dst.cb.buf, dst.cr.buf
    ensures dst.Faithful(g) && forall s :: InFrame(g, s) ==> dst.Get(g, s) == Want(src, g, s)
  {
    var rowPairs := g.RowPairs();
    var workers := if cpus > rowPairs then rowPairs else cpus;
    if workers == 0 {
      return;
    }
    var next: seq<nat> := UpTo(workers);
    ghost var todo: set<nat> := AllPairs(rowPairs);
    StrideBegins(workers, rowPairs);
    assert forall s :: InFrame(g, s) ==> PairOf(s) in todo;
    while exists w :: 0 <= w < workers && next[w] < rowPairs
      invariant |next| == workers && Strided(next, todo, rowPairs)
      invariant dst.Faithful(g) && DoneBut(dst.log, src, g, todo)
      decreases |todo|
    {
      var w :| 0 <= w < workers && next[w] < rowPairs;
      next, todo := WorkerTurn(dst, src, g, next, w, todo);
    }
    StridesDone(next, todo, rowPairs);
  }
}
