/** The agent's scaler, in place: one pass over a captured image, a pair of rows at a time. */
module Scaler {
  import opened Basics
  import opened Colour
  import opened ScalerGeometry
  import opened ScalerSpec

  // ----- Frame buffers -----

  /** Where sample (x, y) of a plane lies in its flat buffer. */
  function Index(stride: nat, x: nat, y: nat): nat { y * stride + x }

  lemma IndexInBounds(stride: nat, rows: nat, x: nat, y: nat)
    requires x < stride && y < rows
    ensures Index(stride, x, y) < stride * rows
  {
    Monotone(y + 1, rows, stride);
    assert (y + 1) * stride == y * stride + stride;
  }

  /** Different samples of a plane never share a byte. */
  lemma IndexInjective(stride: nat, x: nat, y: nat, x': nat, y': nat)
    requires x < stride && x' < stride && Index(stride, x, y) == Index(stride, x', y')
    ensures x == x' && y == y'
  {
    if y < y' {
      Monotone(y + 1, y', stride);
    } else if y' < y {
      Monotone(y' + 1, y, stride);
    }
  }

  /** One plane of a frame: a flat buffer of `rows` rows of `stride` bytes, updated in place. */
  class Plane {
    const buf: array<Byte>
    const stride: nat
    const rows: nat

    ghost predicate Valid() { buf.Length == stride * rows }

    constructor (stride: nat, rows: nat)
      ensures Valid() && this.stride == stride && this.rows == rows && fresh(buf)
      ensures forall x: nat, y: nat :: x < stride && y < rows ==> At(x, y) == 0
    {
      buf := new Byte[stride * rows](_ => 0);
      this.stride := stride;
      this.rows := rows;
      new;
      forall x: nat, y: nat | x < stride && y < rows ensures At(x, y) == 0 { IndexInBounds(stride, rows, x, y); }
    }

    ghost function At(x: nat, y: nat): Byte
      requires Valid() && x < stride && y < rows
      reads buf
    {
      IndexInBounds(stride, rows, x, y);
      buf[Index(stride, x, y)]
    }

    method Put(x: nat, y: nat, v: Byte)
      requires Valid() && x < stride && y < rows
      modifies buf
      ensures At(x, y) == v
      ensures forall x': nat, y': nat :: x' < stride && y' < rows && (x' != x || y' != y) ==> At(x', y') == old(At(x', y'))
    {
      IndexInBounds(stride, rows, x, y);
      buf[Index(stride, x, y)] := v;
      forall x': nat, y': nat | x' < stride && y' < rows && (x' != x || y' != y)
        ensures At(x', y') == old(At(x', y'))
      {
        IndexInBounds(stride, rows, x', y');
        if Index(stride, x', y') == Index(stride, x, y) { IndexInjective(stride, x', y', x, y); }
      }
    }
  }

  /** `log` is history: every store so far. */
  class Frame {
    const y: Plane
    const cb: Plane
    const cr: Plane
    ghost var log: seq<Write>

    ghost predicate Valid(g: Geometry) {
      && y.Valid() && y.stride == g.dstW && y.rows == g.dstH
      && cb.Valid() && cb.stride == g.ChromaW() && cb.rows == g.RowPairs()
      && cr.Valid() && cr.stride == g.ChromaW() && cr.rows == g.RowPairs()
      && y.buf != cb.buf && y.buf != cr.buf && cb.buf != cr.buf
    }

    /** `newI420`: planes of exactly the target size. */
    constructor (g: Geometry)
      ensures Valid(g) && Faithful(g) && fresh({y.buf, cb.buf, cr.buf}) && log == []
    {
      y := new Plane(g.dstW, g.dstH);
      cb := new Plane(g.ChromaW(), g.RowPairs());
      cr := new Plane(g.ChromaW(), g.RowPairs());
      log := [];
    }

    ghost function Get(g: Geometry, s: Sample): Byte
      requires Valid(g) && InFrame(g, s)
      reads y.buf, cb.buf, cr.buf
    {
      match s
      case LumaS(x, r) => y.At(x, r)
      case CbS(cx, cy) => cb.At(cx, cy)
      case CrS(cx, cy) => cr.At(cx, cy)
    }

    /** The planes hold what the stores so far put there. */
    ghost predicate Faithful(g: Geometry)
      requires Valid(g)
      reads `log, y.buf, cb.buf, cr.buf
    {
      forall s :: InFrame(g, s) ==> Get(g, s) == Latest(log, s)
    }

    method Store(g: Geometry, s: Sample, v: Byte)
      requires Valid(g) && InFrame(g, s) && Faithful(g)
      modifies `log, y.buf, cb.buf, cr.buf
      ensures Faithful(g) && log == old(log) + [Write(s, v)]
    {
      log := log + [Write(s, v)];
      match s {
        case LumaS(x, r) => y.Put(x, r, v);
        case CbS(cx, cy) => cb.Put(cx, cy, v);
        case CrS(cx, cy) => cr.Put(cx, cy, v);
      }
      forall s' | InFrame(g, s') ensures Get(g, s') == Latest(log, s') {
        LatestStore(old(log), Write(s, v), s');
        assert s' != s ==> Get(g, s') == old(Get(g, s'));
      }
    }
  }

  /** Where the bytes of a frame are: rows of luma one after another, and rows of half as many chroma samples. */
  lemma BytesInPlace(dst: Frame, g: Geometry, s: Sample)
    requires dst.Valid(g) && InFrame(g, s)
    ensures match s
            case LumaS(x, y) => 0 <= y * g.dstW + x < dst.y.buf.Length && dst.Get(g, s) == dst.y.buf[y * g.dstW + x]
            case CbS(cx, cy) =>
              var i := cy * ((g.dstW + 1) / 2) + cx;
              0 <= i < dst.cb.buf.Length && dst.Get(g, s) == dst.cb.buf[i]
            case CrS(cx, cy) =>
              var i := cy * ((g.dstW + 1) / 2) + cx;
              0 <= i < dst.cr.buf.Length && dst.Get(g, s) == dst.cr.buf[i]
  {
    match s
    case LumaS(x, y) => IndexInBounds(g.dstW, g.dstH, x, y);
    case CbS(cx, cy) => IndexInBounds(g.ChromaW(), g.RowPairs(), cx, cy);
    case CrS(cx, cy) => IndexInBounds(g.ChromaW(), g.RowPairs(), cx, cy);
  }

  // ----- convertRowPair -----

  lemma NothingSummed(src: Source, xs: Span, lo: int)
    ensures Area(xs, Span(lo, lo)) == 0
    ensures forall k: nat, y: int :: RowSum(Channel(src, k), y, xs.lo, xs.lo) == 0
    ensures forall k: nat :: BoxSum(Channel(src, k), xs, Span(lo, lo)) == 0
  {
  }

  /** What the accumulators are after the next pixel of a row. */
  lemma NextPixel(src: Source, g: Geometry, y: int, lo: int, x: int)
    requires Covers(src, g) && 0 <= lo <= x < g.srcW && 0 <= y < g.srcH
    ensures 0 <= Offset(src, x, y) < |src.pix| - 2
    ensures forall k :: 0 <= k < 3 ==>
              RowSum(Channel(src, k), y, lo, x + 1) == RowSum(Channel(src, k), y, lo, x) + src.pix[Offset(src, x, y) + k]
  {
  }

  /** What they are after the next row. */
  lemma NextBoxRow(src: Source, xs: Span, lo: int, y: int)
    requires lo <= y && xs.lo <= xs.hi
    ensures Area(xs, Span(lo, y + 1)) == Area(xs, Span(lo, y)) + (xs.hi - xs.lo)
    ensures forall k: nat :: BoxSum(Channel(src, k), xs, Span(lo, y + 1)) ==
                             BoxSum(Channel(src, k), xs, Span(lo, y)) + RowSum(Channel(src, k), y, xs.lo, xs.hi)
  {
    assert (y + 1 - lo) * (xs.hi - xs.lo) == (y - lo) * (xs.hi - xs.lo) + (xs.hi - xs.lo);
  }

  /** The two inner loops: sums of the three channels over a source box, divided by the pixel count. */
  method BoxAverage(src: Source, g: Geometry, xs: Span, ys: Span) returns (r: int, gr: int, bl: int)
    requires Covers(src, g) && 0 <= xs.lo <= xs.hi <= g.srcW && 0 <= ys.lo <= ys.hi <= g.srcH
    ensures r == Average(Channel(src, 0), xs, ys)
    ensures gr == Average(Channel(src, 1), xs, ys)
    ensures bl == Average(Channel(src, 2), xs, ys)
  {
    hide Channel, Covers, RowSum, Area;
    NothingSummed(src, xs, ys.lo);
    var n := 0;
    r, gr, bl := 0, 0, 0;
    var sy := ys.lo;
    while sy < ys.hi
      invariant ys.lo <= sy <= ys.hi
      invariant r == BoxSum(Channel(src, 0), xs, Span(ys.lo, sy))
      invariant gr == BoxSum(Channel(src, 1), xs, Span(ys.lo, sy))
      invariant bl == BoxSum(Channel(src, 2), xs, Span(ys.lo, sy))
      invariant n == Area(xs, Span(ys.lo, sy))
    {
      var rowStart := src.base + sy * src.stride;
      ghost var r0, g0, b0 := r, gr, bl;
      var sx := xs.lo;
      while sx < xs.hi
        invariant xs.lo <= sx <= xs.hi
        invariant r == r0 + RowSum(Channel(src, 0), sy, xs.lo, sx)
        invariant gr == g0 + RowSum(Channel(src, 1), sy, xs.lo, sx)
        invariant bl == b0 + RowSum(Channel(src, 2), sy, xs.lo, sx)
        invariant n == Area(xs, Span(ys.lo, sy)) + (sx - xs.lo)
      {
        var i := rowStart + sx * 4;
        NextPixel(src, g, sy, xs.lo, sx);
        r := r + src.pix[i];
        gr := gr + src.pix[i + 1];
        bl := bl + src.pix[i + 2];
        n := n + 1;
        sx := sx + 1;
      }
      NextBoxRow(src, xs, ys.lo, sy);
      sy := sy + 1;
    }
    assert Span(ys.lo, sy) == ys;
    if n == 0 {
      n := 1;
    }
    r, gr, bl := r / n, gr / n, bl / n;
  }

  /** One destination pixel: its box average, and its luma stored. */
  method ConvertPixel(dst: Frame, src: Source, g: Geometry, dx: nat, dy: nat) returns (c: Rgb)
    requires Covers(src, g) && dst.Valid(g) && dst.Faithful(g) && dx < g.dstW && dy < g.dstH
    modifies dst`log, dst.y.buf, dst.cb.buf, dst.cr.buf
    ensures dst.Faithful(g)
    ensures c == Scaled(src, g, dx, dy)
    ensures dst.log == old(dst.log) + Wanted(src, g, [LumaS(dx, dy)])
    ensures forall s :: InFrame(g, s) ==>
              dst.Get(g, s) == if s == LumaS(dx, dy) then Want(src, g, s) else old(dst.Get(g, s))
  {
    SpanInBounds(dx, g.srcW, g.dstW);
    SpanInBounds(dy, g.srcH, g.dstH);
    var r, gr, bl := BoxAverage(src, g, g.XSpan(dx), g.YSpan(dy));
    c := Rgb(r, gr, bl);
    dst.Store(g, LumaS(dx, dy), Luma(r, gr, bl));
    assert [Write(LumaS(dx, dy), Luma(r, gr, bl))] == Wanted(src, g, [LumaS(dx, dy)]);
    forall s | InFrame(g, s)
      ensures dst.Get(g, s) == if s == LumaS(dx, dy) then Want(src, g, s) else old(dst.Get(g, s))
    {
      LatestAfter(src, g, old(dst.log), [LumaS(dx, dy)], s);
    }
  }

  /** The lumas of row `dy` inside block column `cx`, and their channel sums. */
  method ConvertBlockRow(dst: Frame, src: Source, g: Geometry, cx: nat, dy: nat)
    returns (sum: Rgb, n: nat)
    requires Covers(src, g) && dst.Valid(g) && dst.Faithful(g) && 2 * cx < g.dstW && dy < g.dstH
    modifies dst`log, dst.y.buf, dst.cb.buf, dst.cr.buf
    ensures dst.Faithful(g)
    ensures sum == BlockRow(src, g, cx, dy, Shared(cx, g.dstW).hi)
    ensures n == Shared(cx, g.dstW).hi - 2 * cx
    ensures dst.log == old(dst.log) + Wanted(src, g, RowLumas(dy, 2 * cx, Shared(cx, g.dstW).hi))
  {
    sum, n := BLACK, 0;
    var dx := 2 * cx;
    while dx < 2 * cx + 2 && dx < g.dstW
      invariant 2 * cx <= dx <= Shared(cx, g.dstW).hi
      invariant sum == BlockRow(src, g, cx, dy, dx)
      invariant n == dx - 2 * cx
      invariant dst.log == old(dst.log) + Wanted(src, g, RowLumas(dy, 2 * cx, dx))
      invariant dst.Faithful(g)
    {
      var c := ConvertPixel(dst, src, g, dx, dy);
      WantedJoins(src, g, RowLumas(dy, 2 * cx, dx), [LumaS(dx, dy)]);
      sum, n, dx := sum.Plus(c), n + 1, dx + 1;
    }
    assert dx == Shared(cx, g.dstW).hi;
  }

  lemma NextRow(src: Source, g: Geometry, xs: Span, top: int, y: int, log: seq<Write>, log': seq<Write>)
    requires top <= y && log' == log + Wanted(src, g, BoxLumas(xs, Span(top, y)))
    ensures log' + Wanted(src, g, RowLumas(y, xs.lo, xs.hi)) == log + Wanted(src, g, BoxLumas(xs, Span(top, y + 1)))
  {
    assert Span(top, y) == Span(Span(top, y + 1).lo, Span(top, y + 1).hi - 1);
    WantedJoins(src, g, BoxLumas(xs, Span(top, y)), RowLumas(y, xs.lo, xs.hi));
  }

  /** All lumas of the 2x2 block (cx, cy), and the block's channel sums. */
  method ConvertBlockLumas(dst: Frame, src: Source, g: Geometry, cx: nat, cy: nat)
    returns (sum: Rgb, n: int)
    requires Covers(src, g) && dst.Valid(g) && dst.Faithful(g) && 2 * cx < g.dstW && 2 * cy < g.dstH
    modifies dst`log, dst.y.buf, dst.cb.buf, dst.cr.buf
    ensures dst.Faithful(g)
    ensures var xs, ys := Shared(cx, g.dstW), Shared(cy, g.dstH);
            sum == BlockSum(src, g, cx, cy, ys.hi) && n == Area(xs, ys) &&
            dst.log == old(dst.log) + Wanted(src, g, BoxLumas(xs, ys))
  {
    ghost var xs, log := Shared(cx, g.dstW), dst.log;
    sum, n := BLACK, 0;
    var dy := 2 * cy;
    while dy < 2 * cy + 2 && dy < g.dstH
      invariant 2 * cy <= dy <= Shared(cy, g.dstH).hi
      invariant sum == BlockSum(src, g, cx, cy, dy)
      invariant n == BlockCount(xs.hi - 2 * cx, cy, dy)
      invariant dst.Faithful(g) && dst.log == log + Wanted(src, g, BoxLumas(xs, Span(2 * cy, dy)))
    {
      NextRow(src, g, xs, 2 * cy, dy, log, dst.log);
      var rowSum, rowN := ConvertBlockRow(dst, src, g, cx, dy);
      sum, n := sum.Plus(rowSum), n + rowN;
      dy := dy + 1;
    }
    assert Span(2 * cy, dy) == Shared(cy, g.dstH);
    CountIsArea(xs, cy, g.dstH);
  }

  /** The lumas of a block and then its two chroma samples are the stores of the block. */
  lemma BlockLog(src: Source, g: Geometry, cx: nat, cy: nat, log: seq<Write>, log': seq<Write>)
    requires log' == log + Wanted(src, g, BoxLumas(Shared(cx, g.dstW), Shared(cy, g.dstH)))
    ensures log' + [Write(CbS(cx, cy), CbAt(src, g, cx, cy))] + [Write(CrS(cx, cy), CrAt(src, g, cx, cy))] ==
            log + Wanted(src, g, BlockSamples(g, cx, cy))
  {
    WantedJoins(src, g, BoxLumas(Shared(cx, g.dstW), Shared(cy, g.dstH)), [CbS(cx, cy), CrS(cx, cy)]);
  }

  /** One 2x2 block: its lumas are stored, then the chroma sample they share, and nothing else (see BlockStores). */
  method ConvertBlock(dst: Frame, src: Source, g: Geometry, cx: nat, cy: nat)
    requires Covers(src, g) && dst.Valid(g) && dst.Faithful(g) && 2 * cx < g.dstW && 2 * cy < g.dstH
    modifies dst`log, dst.y.buf, dst.cb.buf, dst.cr.buf
    ensures dst.Faithful(g) && dst.log == old(dst.log) + Wanted(src, g, BlockSamples(g, cx, cy))
  {
    var sum, n := ConvertBlockLumas(dst, src, g, cx, cy);
    BlockIsNotEmpty(g, cx, cy);
    if n == 0 {
      assert false;
    }
    var c := Rgb(sum.r / n, sum.g / n, sum.b / n);
    assert c == BlockAverage(src, g, cx, cy);
    BlockLog(src, g, cx, cy, old(dst.log), dst.log);
    dst.Store(g, CbS(cx, cy), Cb(c.r, c.g, c.b));
    dst.Store(g, CrS(cx, cy), Cr(c.r, c.g, c.b));
  }

  lemma NextBlock(src: Source, g: Geometry, p: nat, n: nat, log: seq<Write>, log': seq<Write>)
    requires log' == log + Wanted(src, g, PairSamples(g, p, n))
    ensures log' + Wanted(src, g, BlockSamples(g, n, p)) == log + Wanted(src, g, PairSamples(g, p, n + 1))
  {
    hide BlockSamples, Want;
    var before, block := PairSamples(g, p, n), BlockSamples(g, n, p);
    WantedJoins(src, g, before, block);
    assert PairSamples(g, p, n + 1) == before + block;
    assert log + Wanted(src, g, before) + Wanted(src, g, block) == log + (Wanted(src, g, before) + Wanted(src, g, block));
  }

  /** `convertRowPair`: it stores every sample of the pair, once, in the order of `PairSamples`, each its specified
      value, and stores nothing else; PairStores says what that makes of the frame. */
  method ConvertRowPair(dst: Frame, src: Source, g: Geometry, p: nat)
    requires Covers(src, g) && dst.Valid(g) && dst.Faithful(g) && p < g.RowPairs()
    modifies dst`log, dst.y.buf, dst.cb.buf, dst.cr.buf
    ensures dst.Faithful(g)
    ensures dst.log == old(dst.log) + Wanted(src, g, PairSamples(g, p, g.ChromaW()))
  {
    hide BlockSamples, BoxLumas, RowLumas;
    ghost var log := dst.log;
    ghost var n := 0;
    var x0 := 0;
    while x0 < g.dstW
      invariant x0 == 2 * n && n <= g.ChromaW()
      invariant dst.Faithful(g) && dst.log == log + Wanted(src, g, PairSamples(g, p, n))
    {
      NextBlock(src, g, p, n, log, dst.log);
      ConvertBlock(dst, src, g, x0 / 2, p);
      x0, n := x0 + 2, n + 1;
    }
  }
}
