/** What the agent's scaler is to compute, from captured RGBA to a smaller I420 frame: every sample of the result
    on its own, and the stores that make it up. */
module ScalerSpec {
  import opened Basics
  import opened Colour
  import opened Counting
  import opened ScalerGeometry

  /** A captured image: `base` is the offset of its first pixel and `stride` the bytes per row. */
  datatype Source = Source(pix: seq<Byte>, base: nat, stride: nat)

  datatype Geometry = Geometry(srcW: nat, srcH: nat, dstW: nat, dstH: nat) {
    function ChromaW(): nat { (dstW + 1) / 2 }

    function RowPairs(): nat { (dstH + 1) / 2 }

    function XSpan(x: nat): Span requires x < dstW { SpanAt(x, srcW, dstW) }

    function YSpan(y: nat): Span requires y < dstH { SpanAt(y, srcH, dstH) }
  }

  function Offset(src: Source, x: int, y: int): int { src.base + y * src.stride + x * 4 }

  /** The image really has the size the scaler was built for. */
  ghost predicate Covers(src: Source, g: Geometry) {
    && g.srcW > 0 && g.srcH > 0
    && forall x, y :: 0 <= x < g.srcW && 0 <= y < g.srcH ==> 0 <= Offset(src, x, y) < |src.pix| - 2
  }

  // ----- Specification: what each sample of the result is -----

  /** Channel `k` (0 red, 1 green, 2 blue) of source pixel (x, y). */
  function Channel(src: Source, k: nat): (int, int) -> int {
    (x: int, y: int) => if 0 <= Offset(src, x, y) + k < |src.pix| then src.pix[Offset(src, x, y) + k] else 0
  }

  function Area(xs: Span, ys: Span): int { (ys.hi - ys.lo) * (xs.hi - xs.lo) }

  function Average(f: (int, int) -> int, xs: Span, ys: Span): int {
    BoxSum(f, xs, ys) / (if Area(xs, ys) == 0 then 1 else Area(xs, ys))
  }

  /** A colour, or a sum of colours. */
  datatype Rgb = Rgb(r: int, g: int, b: int) {
    function Plus(other: Rgb): Rgb { Rgb(r + other.r, g + other.g, b + other.b) }

    function DividedBy(n: int): Rgb { if n == 0 then this else Rgb(r / n, g / n, b / n) }
  }

  const BLACK := Rgb(0, 0, 0)

  /** The box average behind destination pixel (x, y). */
  function Scaled(src: Source, g: Geometry, x: int, y: int): Rgb {
    if 0 <= x < g.dstW && 0 <= y < g.dstH then
      Rgb(Average(Channel(src, 0), g.XSpan(x), g.YSpan(y)), Average(Channel(src, 1), g.XSpan(x), g.YSpan(y)),
          Average(Channel(src, 2), g.XSpan(x), g.YSpan(y)))
    else
      BLACK
  }

  function LumaAt(src: Source, g: Geometry, x: int, y: int): Byte {
    var c := Scaled(src, g, x, y);
    Luma(c.r, c.g, c.b)
  }

  /** The destination pixels, at most two, that share chroma index `c` on an axis of length `n`. */
  function Shared(c: int, n: nat): Span { Span(2 * c, if 2 * c + 2 < n then 2 * c + 2 else n) }

  /** The pixels of block column `cx` in row `y` left of `x`, summed. */
  function BlockRow(src: Source, g: Geometry, cx: int, y: int, x: int): Rgb {
    var first := if 2 * cx < x then Scaled(src, g, 2 * cx, y) else BLACK;
    if 2 * cx + 1 < x then first.Plus(Scaled(src, g, 2 * cx + 1, y)) else first
  }

  /** The pixels of block (cx, cy) above row `y`, summed. */
  function BlockSum(src: Source, g: Geometry, cx: int, cy: int, y: int): Rgb {
    var hi := Shared(cx, g.dstW).hi;
    var first := if 2 * cy < y then BlockRow(src, g, cx, 2 * cy, hi) else BLACK;
    if 2 * cy + 1 < y then first.Plus(BlockRow(src, g, cx, 2 * cy + 1, hi)) else first
  }

  /** The average of the destination pixels that share chroma sample (cx, cy). */
  function BlockAverage(src: Source, g: Geometry, cx: int, cy: int): Rgb {
    var xs, ys := Shared(cx, g.dstW), Shared(cy, g.dstH);
    BlockSum(src, g, cx, cy, ys.hi).DividedBy(Area(xs, ys))
  }

  function CbAt(src: Source, g: Geometry, cx: int, cy: int): Byte {
    var c := BlockAverage(src, g, cx, cy);
    Cb(c.r, c.g, c.b)
  }

  function CrAt(src: Source, g: Geometry, cx: int, cy: int): Byte {
    var c := BlockAverage(src, g, cx, cy);
    Cr(c.r, c.g, c.b)
  }

  /** How many pixels of a block `w` wide lie above row `y`. */
  function BlockCount(w: int, cy: int, y: int): int {
    (if 2 * cy < y then w else 0) + (if 2 * cy + 1 < y then w else 0)
  }

  lemma CountIsArea(xs: Span, cy: int, n: nat)
    requires 2 * cy < n
    ensures BlockCount(xs.hi - xs.lo, cy, Shared(cy, n).hi) == Area(xs, Shared(cy, n))
  {
  }

  lemma BlockIsNotEmpty(g: Geometry, cx: nat, cy: nat)
    requires 2 * cx < g.dstW && 2 * cy < g.dstH
    ensures Area(Shared(cx, g.dstW), Shared(cy, g.dstH)) > 0
  {
  }

  // ----- The order in which samples are written -----

  datatype Sample = LumaS(x: int, y: int) | CbS(cx: int, cy: int) | CrS(cx: int, cy: int)

  function RowLumas(y: int, lo: int, hi: int): seq<Sample>
    decreases hi - lo
  {
    if hi <= lo then [] else RowLumas(y, lo, hi - 1) + [LumaS(hi - 1, y)]
  }

  function BoxLumas(xs: Span, ys: Span): seq<Sample>
    decreases ys.hi - ys.lo
  {
    if ys.hi <= ys.lo then [] else BoxLumas(xs, Span(ys.lo, ys.hi - 1)) + RowLumas(ys.hi - 1, xs.lo, xs.hi)
  }

  function BlockSamples(g: Geometry, cx: int, cy: int): seq<Sample> {
    BoxLumas(Shared(cx, g.dstW), Shared(cy, g.dstH)) + [CbS(cx, cy), CrS(cx, cy)]
  }

  /** What `convertRowPair` writes for its first `n` blocks. */
  function PairSamples(g: Geometry, p: int, n: nat): seq<Sample> {
    if n == 0 then [] else PairSamples(g, p, n - 1) + BlockSamples(g, n - 1, p)
  }

  // ----- Samples and stores -----

  predicate InFrame(g: Geometry, s: Sample) {
    match s
    case LumaS(x, y) => 0 <= x < g.dstW && 0 <= y < g.dstH
    case CbS(cx, cy) => 0 <= cx < g.ChromaW() && 0 <= cy < g.RowPairs()
    case CrS(cx, cy) => 0 <= cx < g.ChromaW() && 0 <= cy < g.RowPairs()
  }

  /** The specified value of a sample. */
  function Want(src: Source, g: Geometry, s: Sample): Byte {
    match s
    case LumaS(x, y) => LumaAt(src, g, x, y)
    case CbS(cx, cy) => CbAt(src, g, cx, cy)
    case CrS(cx, cy) => CrAt(src, g, cx, cy)
  }

  function PairOf(s: Sample): int {
    match s
    case LumaS(_, y) => y / 2
    case CbS(_, cy) => cy
    case CrS(_, cy) => cy
  }

  function BlockOf(s: Sample): int {
    match s
    case LumaS(x, _) => x / 2
    case CbS(cx, _) => cx
    case CrS(cx, _) => cx
  }

  /** One store to a frame. */
  datatype Write = Write(s: Sample, v: Byte)

  /** The stores that give the samples of `q`, in that order, their specified values. */
  ghost function Wanted(src: Source, g: Geometry, q: seq<Sample>): (w: seq<Write>)
    ensures |w| == |q| && forall i :: 0 <= i < |q| ==> w[i] == Write(q[i], Want(src, g, q[i]))
  {
    seq(|q|, i requires 0 <= i < |q| => Write(q[i], Want(src, g, q[i])))
  }

  lemma WantedJoins(src: Source, g: Geometry, a: seq<Sample>, b: seq<Sample>)
    ensures Wanted(src, g, a + b) == Wanted(src, g, a) + Wanted(src, g, b)
  {
  }

  /** What a sample holds after some stores: the latest one to it, or the zero of a new frame. */
  ghost function Latest(log: seq<Write>, s: Sample): Byte {
    if log == [] then 0
    else if log[|log| - 1].s == s then log[|log| - 1].v
    else Latest(log[..|log| - 1], s)
  }

  lemma LatestStore(log: seq<Write>, w: Write, s: Sample)
    ensures Latest(log + [w], s) == if w.s == s then w.v else Latest(log, s)
  {
    assert (log + [w])[..|log|] == log;
  }

  /** Specified stores leave their samples as specified, and the others as they were. */
  lemma {:induction false} LatestAfter(src: Source, g: Geometry, log: seq<Write>, q: seq<Sample>, s: Sample)
    ensures Latest(log + Wanted(src, g, q), s) == if s in q then Want(src, g, s) else Latest(log, s)
    decreases |q|
  {
    if q == [] {
      assert log + Wanted(src, g, q) == log;
    } else {
      var n := |q| - 1;
      var w := Write(q[n], Want(src, g, q[n]));
      assert q == q[..n] + [q[n]];
      WantedJoins(src, g, q[..n], [q[n]]);
      assert Wanted(src, g, [q[n]]) == [w];
      assert log + Wanted(src, g, q) == (log + Wanted(src, g, q[..n])) + [w];
      LatestAfter(src, g, log, q[..n], s);
      LatestStore(log + Wanted(src, g, q[..n]), w, s);
    }
  }

  // ----- Each sample of a row pair is stored exactly once -----

  lemma {:induction false} RowOnce(y: int, lo: int, hi: int, s: Sample)
    ensures Times(RowLumas(y, lo, hi), s) == if s.LumaS? && s.y == y && lo <= s.x < hi then 1 else 0
    decreases hi - lo
  {
    if lo < hi {
      RowOnce(y, lo, hi - 1, s);
      TimesJoin(RowLumas(y, lo, hi - 1), [LumaS(hi - 1, y)], s);
    }
  }

  lemma {:induction false} BoxOnce(xs: Span, ys: Span, s: Sample)
    ensures Times(BoxLumas(xs, ys), s) == if s.LumaS? && ys.lo <= s.y < ys.hi && xs.lo <= s.x < xs.hi then 1 else 0
    decreases ys.hi - ys.lo
  {
    if ys.lo < ys.hi {
      BoxOnce(xs, Span(ys.lo, ys.hi - 1), s);
      RowOnce(ys.hi - 1, xs.lo, xs.hi, s);
      TimesJoin(BoxLumas(xs, Span(ys.lo, ys.hi - 1)), RowLumas(ys.hi - 1, xs.lo, xs.hi), s);
    }
  }

  function One(b: bool): nat { if b then 1 else 0 }

  lemma BlockOnce(g: Geometry, cx: nat, cy: nat, s: Sample)
    requires 2 * cx < g.dstW && 2 * cy < g.dstH
    ensures Times(BlockSamples(g, cx, cy), s) == One(InFrame(g, s) && BlockOf(s) == cx && PairOf(s) == cy)
  {
    var xs, ys := Shared(cx, g.dstW), Shared(cy, g.dstH);
    BoxOnce(xs, ys, s);
    TimesJoin(BoxLumas(xs, ys), [CbS(cx, cy), CrS(cx, cy)], s);
    var a, b := CbS(cx, cy), CrS(cx, cy);
    assert [a, b][1..] == [b];
    assert Times([b], s) == One(s == b);
    assert Times([a, b], s) == One(s == a) + One(s == b);
    if s.LumaS? { assert BlockOf(s) == cx <==> 2 * cx <= s.x < 2 * cx + 2; }
  }

  lemma {:induction false} PairOnce(g: Geometry, p: nat, n: nat, s: Sample)
    requires p < g.RowPairs() && n <= g.ChromaW()
    ensures Times(PairSamples(g, p, n), s) == One(InFrame(g, s) && PairOf(s) == p && BlockOf(s) < n)
  {
    if n > 0 {
      PairOnce(g, p, n - 1, s);
      BlockOnce(g, n - 1, p, s);
      TimesJoin(PairSamples(g, p, n - 1), BlockSamples(g, n - 1, p), s);
    } else if InFrame(g, s) {
      assert BlockOf(s) >= 0;
    }
  }

  lemma BlockStores(src: Source, g: Geometry, log: seq<Write>, cx: nat, cy: nat, s: Sample)
    requires 2 * cx < g.dstW && 2 * cy < g.dstH && InFrame(g, s)
    ensures Latest(log + Wanted(src, g, BlockSamples(g, cx, cy)), s) ==
            if BlockOf(s) == cx && PairOf(s) == cy then Want(src, g, s) else Latest(log, s)
  {
    BlockOnce(g, cx, cy, s);
    TimesZero(BlockSamples(g, cx, cy), s);
    LatestAfter(src, g, log, BlockSamples(g, cx, cy), s);
  }

  lemma PairStores(src: Source, g: Geometry, log: seq<Write>, p: nat, s: Sample)
    requires p < g.RowPairs() && InFrame(g, s)
    ensures Latest(log + Wanted(src, g, PairSamples(g, p, g.ChromaW())), s) ==
            if PairOf(s) == p then Want(src, g, s) else Latest(log, s)
  {
    PairOnce(g, p, g.ChromaW(), s);
    TimesZero(PairSamples(g, p, g.ChromaW()), s);
    LatestAfter(src, g, log, PairSamples(g, p, g.ChromaW()), s);
    if s.LumaS? { assert BlockOf(s) < g.ChromaW(); }
  }
}
