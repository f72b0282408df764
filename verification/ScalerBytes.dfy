/** What a converted frame holds, said of the bytes of the image: red, green and blue are bytes 0, 1 and 2 of a pixel,
    every destination pixel is the average of its box of source pixels, and four of them share their chroma. */
module ScalerBytes {
  import opened Basics
  import opened Colour
  import opened ScalerGeometry
  import opened ScalerSpec
  import opened ScalerColour

  function ByteAt(src: Source, i: int): int { if 0 <= i < |src.pix| then src.pix[i] else 0 }

  /** Byte `k` of the pixels in columns lo..hi of row `y`, summed. */
  function RowBytes(src: Source, k: nat, y: int, lo: int, hi: int): int
    decreases hi - lo
  {
    if hi <= lo then 0
    else RowBytes(src, k, y, lo, hi - 1) + ByteAt(src, src.base + y * src.stride + 4 * (hi - 1) + k)
  }

  /** The same over rows top..bottom. */
  function BoxBytes(src: Source, k: nat, lo: int, hi: int, top: int, bottom: int): int
    decreases bottom - top
  {
    if bottom <= top then 0
    else BoxBytes(src, k, lo, hi, top, bottom - 1) + RowBytes(src, k, bottom - 1, lo, hi)
  }

  /** The source range lo..hi behind destination index `i`: `lo` is what part `i` of the axis begins in, `hi` what the
      next part begins in, or the next index where that leaves nothing. */
  predicate Behind(i: int, srcLen: int, dstLen: int, lo: int, hi: int) {
    && dstLen * lo <= i * srcLen < dstLen * (lo + 1)
    && if dstLen * (lo + 1) <= (i + 1) * srcLen then dstLen * hi <= (i + 1) * srcLen < dstLen * (hi + 1) else hi == lo + 1
  }

  /** The average, rounded down, of `n` numbers with this sum. */
  predicate Averages(q: int, n: int, sum: int) { n > 0 && n * q <= sum < n * (q + 1) }

  /** `c` is the average colour of the box lo..hi, top..bottom. */
  predicate IsBoxColour(src: Source, lo: int, hi: int, top: int, bottom: int, c: Rgb) {
    var n := (bottom - top) * (hi - lo);
    && Averages(c.r, n, BoxBytes(src, 0, lo, hi, top, bottom))
    && Averages(c.g, n, BoxBytes(src, 1, lo, hi, top, bottom))
    && Averages(c.b, n, BoxBytes(src, 2, lo, hi, top, bottom))
  }

  /** `c` is the colour of destination pixel (x, y). */
  ghost predicate IsColour(src: Source, g: Geometry, x: int, y: int, c: Rgb) {
    exists lo, hi, top, bottom ::
      Behind(x, g.srcW, g.dstW, lo, hi) && Behind(y, g.srcH, g.dstH, top, bottom) &&
      IsBoxColour(src, lo, hi, top, bottom, c)
  }

  // ----- The specification computes that -----

  lemma AverageIsUnique(p: int, q: int, n: int, sum: int)
    requires Averages(p, n, sum) && Averages(q, n, sum)
    ensures p == q
  {
    Less(n, p, q + 1);
    Less(n, q, p + 1);
  }

  lemma CutIsBelow(i: nat, srcLen: nat, dstLen: nat)
    requires dstLen > 0
    ensures dstLen * Cut(i, srcLen, dstLen) <= i * srcLen < dstLen * (Cut(i, srcLen, dstLen) + 1)
  {
    DivBounds(i * srcLen, dstLen);
    assert dstLen * (Cut(i, srcLen, dstLen) + 1) == dstLen * Cut(i, srcLen, dstLen) + dstLen;
  }

  /** `makeSpans` gives the range behind each index. */
  lemma SpanIsBehind(i: nat, srcLen: nat, dstLen: nat)
    requires srcLen > 0 && i < dstLen
    ensures Behind(i, srcLen, dstLen, SpanAt(i, srcLen, dstLen).lo, SpanAt(i, srcLen, dstLen).hi)
  {
    var lo, next := Cut(i, srcLen, dstLen), Cut(i + 1, srcLen, dstLen);
    SpanInBounds(i, srcLen, dstLen);
    CutIsBelow(i, srcLen, dstLen);
    CutIsBelow(i + 1, srcLen, dstLen);
    CutEnds(srcLen, dstLen);
    CutAtMost(i + 1, dstLen, srcLen, dstLen);
    if dstLen * (lo + 1) <= (i + 1) * srcLen {
      Less(dstLen, lo + 1, next + 1);
    } else {
      Less(dstLen, next, lo + 1);
    }
  }

  lemma BehindIsUnique(i: int, srcLen: int, dstLen: int, lo: int, hi: int, lo': int, hi': int)
    requires dstLen > 0 && Behind(i, srcLen, dstLen, lo, hi) && Behind(i, srcLen, dstLen, lo', hi')
    ensures lo == lo' && hi == hi'
  {
    AverageIsUnique(lo, lo', dstLen, i * srcLen);
    if dstLen * (lo + 1) <= (i + 1) * srcLen { AverageIsUnique(hi, hi', dstLen, (i + 1) * srcLen); }
  }

  lemma {:induction false} RowIsBytes(src: Source, k: nat, y: int, lo: int, hi: int)
    ensures RowSum(Channel(src, k), y, lo, hi) == RowBytes(src, k, y, lo, hi)
    decreases hi - lo
  {
    if lo < hi { RowIsBytes(src, k, y, lo, hi - 1); }
  }

  lemma {:induction false} BoxIsBytes(src: Source, k: nat, xs: Span, ys: Span)
    ensures BoxSum(Channel(src, k), xs, ys) == BoxBytes(src, k, xs.lo, xs.hi, ys.lo, ys.hi)
    decreases ys.hi - ys.lo
  {
    if ys.lo < ys.hi {
      BoxIsBytes(src, k, xs, Span(ys.lo, ys.hi - 1));
      RowIsBytes(src, k, ys.hi - 1, xs.lo, xs.hi);
    }
  }

  lemma QuotientAverages(sum: int, n: int)
    requires n > 0
    ensures Averages(sum / n, n, sum)
  {
    var q := sum / n;
    assert n * (q + 1) == n * q + n;
  }

  lemma AverageIsOfBytes(src: Source, k: nat, xs: Span, ys: Span)
    requires xs.lo < xs.hi && ys.lo < ys.hi
    ensures Averages(Average(Channel(src, k), xs, ys), (ys.hi - ys.lo) * (xs.hi - xs.lo),
                     BoxBytes(src, k, xs.lo, xs.hi, ys.lo, ys.hi))
  {
    BoxIsBytes(src, k, xs, ys);
    Area1(xs, ys);
    QuotientAverages(BoxSum(Channel(src, k), xs, ys), Area(xs, ys));
  }

  lemma ScaledIsColour(src: Source, g: Geometry, x: nat, y: nat)
    requires g.srcW > 0 && g.srcH > 0 && x < g.dstW && y < g.dstH
    ensures IsColour(src, g, x, y, Scaled(src, g, x, y))
  {
    var xs, ys := g.XSpan(x), g.YSpan(y);
    SpanInBounds(x, g.srcW, g.dstW);
    SpanInBounds(y, g.srcH, g.dstH);
    SpanIsBehind(x, g.srcW, g.dstW);
    SpanIsBehind(y, g.srcH, g.dstH);
    AverageIsOfBytes(src, 0, xs, ys);
    AverageIsOfBytes(src, 1, xs, ys);
    AverageIsOfBytes(src, 2, xs, ys);
    hide Averages, BoxBytes, Behind, Average, Channel;
    assert IsBoxColour(src, xs.lo, xs.hi, ys.lo, ys.hi, Scaled(src, g, x, y));
  }

  lemma ColourIsUnique(src: Source, g: Geometry, x: int, y: int, c: Rgb, c': Rgb)
    requires g.dstW > 0 && g.dstH > 0 && IsColour(src, g, x, y, c) && IsColour(src, g, x, y, c')
    ensures c == c'
  {
    hide BoxBytes, Behind, Averages;
    var lo, hi, top, bottom :|
      Behind(x, g.srcW, g.dstW, lo, hi) && Behind(y, g.srcH, g.dstH, top, bottom) &&
      IsBoxColour(src, lo, hi, top, bottom, c);
    var lo', hi', top', bottom' :|
      Behind(x, g.srcW, g.dstW, lo', hi') && Behind(y, g.srcH, g.dstH, top', bottom') &&
      IsBoxColour(src, lo', hi', top', bottom', c');
    BehindIsUnique(x, g.srcW, g.dstW, lo, hi, lo', hi');
    BehindIsUnique(y, g.srcH, g.dstH, top, bottom, top', bottom');
    var n := (bottom - top) * (hi - lo);
    AverageIsUnique(c.r, c'.r, n, BoxBytes(src, 0, lo, hi, top, bottom));
    AverageIsUnique(c.g, c'.g, n, BoxBytes(src, 1, lo, hi, top, bottom));
    AverageIsUnique(c.b, c'.b, n, BoxBytes(src, 2, lo, hi, top, bottom));
  }

  // ----- What a frame holds -----

  /** Every luma sample is the luma of its pixel's colour. */
  lemma LumaIsOfBytes(src: Source, g: Geometry, x: nat, y: nat) returns (c: Rgb)
    requires Covers(src, g) && x < g.dstW && y < g.dstH
    ensures IsColour(src, g, x, y, c) && Want(src, g, LumaS(x, y)) == Luma(c.r, c.g, c.b)
  {
    c := Scaled(src, g, x, y);
    ScaledIsColour(src, g, x, y);
  }

  /** The colours of the pixels of a block: `b` is right of `a`, `c` below it, `d` below `b`. */
  datatype Four = Four(a: Rgb, b: Rgb, c: Rgb, d: Rgb)

  /** The sum of four numbers, without those whose pixel of block (cx, cy) the frame does not have. */
  function OverBlock(g: Geometry, cx: int, cy: int, a: int, b: int, c: int, d: int): int {
    var right, below := 2 * cx + 1 < g.dstW, 2 * cy + 1 < g.dstH;
    a + (if right then b else 0) + (if below then c else 0) + (if right && below then d else 0)
  }

  ghost predicate AreColours(src: Source, g: Geometry, cx: int, cy: int, of: Four) {
    && IsColour(src, g, 2 * cx, 2 * cy, of.a)
    && (2 * cx + 1 < g.dstW ==> IsColour(src, g, 2 * cx + 1, 2 * cy, of.b))
    && (2 * cy + 1 < g.dstH ==> IsColour(src, g, 2 * cx, 2 * cy + 1, of.c))
    && (2 * cx + 1 < g.dstW && 2 * cy + 1 < g.dstH ==> IsColour(src, g, 2 * cx + 1, 2 * cy + 1, of.d))
  }

  /** `c` is the average of the colours of the block's pixels. */
  predicate IsBlockColour(g: Geometry, cx: int, cy: int, of: Four, c: Rgb) {
    var n := OverBlock(g, cx, cy, 1, 1, 1, 1);
    && Averages(c.r, n, OverBlock(g, cx, cy, of.a.r, of.b.r, of.c.r, of.d.r))
    && Averages(c.g, n, OverBlock(g, cx, cy, of.a.g, of.b.g, of.c.g, of.d.g))
    && Averages(c.b, n, OverBlock(g, cx, cy, of.a.b, of.b.b, of.c.b, of.d.b))
  }

  lemma BlockSums(src: Source, g: Geometry, cx: nat, cy: nat, of: Four)
    requires Covers(src, g) && 2 * cx < g.dstW && 2 * cy < g.dstH && AreColours(src, g, cx, cy, of)
    ensures var sum := BlockSum(src, g, cx, cy, Shared(cy, g.dstH).hi);
            && sum.r == OverBlock(g, cx, cy, of.a.r, of.b.r, of.c.r, of.d.r)
            && sum.g == OverBlock(g, cx, cy, of.a.g, of.b.g, of.c.g, of.d.g)
            && sum.b == OverBlock(g, cx, cy, of.a.b, of.b.b, of.c.b, of.d.b)
    ensures Area(Shared(cx, g.dstW), Shared(cy, g.dstH)) == OverBlock(g, cx, cy, 1, 1, 1, 1)
  {
    hide Scaled, IsColour;
    var x, y := 2 * cx, 2 * cy;
    TheColour(src, g, x, y, of.a);
    if x + 1 < g.dstW { TheColour(src, g, x + 1, y, of.b); }
    if y + 1 < g.dstH { TheColour(src, g, x, y + 1, of.c); }
    if x + 1 < g.dstW && y + 1 < g.dstH { TheColour(src, g, x + 1, y + 1, of.d); }
  }

  lemma TheColour(src: Source, g: Geometry, x: nat, y: nat, c: Rgb)
    requires Covers(src, g) && x < g.dstW && y < g.dstH && IsColour(src, g, x, y, c)
    ensures c == Scaled(src, g, x, y)
  {
    hide Scaled, IsColour;
    ScaledIsColour(src, g, x, y);
    ColourIsUnique(src, g, x, y, c, Scaled(src, g, x, y));
  }

  /** Both chroma samples of a block are those of the average of its pixels' colours. */
  lemma ChromaIsOfBytes(src: Source, g: Geometry, cx: nat, cy: nat, of: Four) returns (c: Rgb)
    requires Covers(src, g) && cx < g.ChromaW() && cy < g.RowPairs() && AreColours(src, g, cx, cy, of)
    ensures IsBlockColour(g, cx, cy, of, c)
    ensures Want(src, g, CbS(cx, cy)) == Cb(c.r, c.g, c.b) && Want(src, g, CrS(cx, cy)) == Cr(c.r, c.g, c.b)
  {
    hide BlockSum, Averages, IsColour, OverBlock;
    c := BlockAverage(src, g, cx, cy);
    BlockSums(src, g, cx, cy, of);
    BlockIsNotEmpty(g, cx, cy);
    var sum, n := BlockSum(src, g, cx, cy, Shared(cy, g.dstH).hi), Area(Shared(cx, g.dstW), Shared(cy, g.dstH));
    QuotientAverages(sum.r, n);
    QuotientAverages(sum.g, n);
    QuotientAverages(sum.b, n);
  }

  // ----- One colour -----

  /** Every pixel of the image is red `r`, green `gr`, blue `b`, in bytes 0, 1 and 2. */
  ghost predicate Uniform(src: Source, g: Geometry, c: Rgb) {
    forall x, y :: 0 <= x < g.srcW && 0 <= y < g.srcH ==>
      var i := Offset(src, x, y);
      ByteAt(src, i) == c.r && ByteAt(src, i + 1) == c.g && ByteAt(src, i + 2) == c.b
  }

  lemma {:induction false} RowOfOne(src: Source, k: nat, y: int, lo: int, hi: int, v: int)
    requires lo <= hi && forall x :: lo <= x < hi ==> ByteAt(src, Offset(src, x, y) + k) == v
    ensures RowBytes(src, k, y, lo, hi) == (hi - lo) * v
    decreases hi - lo
  {
    if lo < hi {
      RowOfOne(src, k, y, lo, hi - 1, v);
      assert ByteAt(src, Offset(src, hi - 1, y) + k) == v;
      assert (hi - lo) * v == (hi - 1 - lo) * v + v;
    }
  }

  lemma {:induction false} BoxOfOne(src: Source, k: nat, lo: int, hi: int, top: int, bottom: int, v: int)
    requires lo <= hi && top <= bottom
    requires forall x, y :: lo <= x < hi && top <= y < bottom ==> ByteAt(src, Offset(src, x, y) + k) == v
    ensures BoxBytes(src, k, lo, hi, top, bottom) == (bottom - top) * (hi - lo) * v
    decreases bottom - top
  {
    if top < bottom {
      hide ByteAt, Offset;
      BoxOfOne(src, k, lo, hi, top, bottom - 1, v);
      RowOfOne(src, k, bottom - 1, lo, hi, v);
      Distribute(bottom - 1 - top, hi - lo, v);
    }
  }

  lemma Distribute(m: int, w: int, v: int)
    ensures (m + 1) * w * v == m * w * v + w * v
  {
  }

  lemma AverageOfOne(n: int, v: int)
    requires n > 0
    ensures Averages(v, n, n * v)
  {
    assert n * (v + 1) == n * v + n;
  }

  lemma UniformColour(src: Source, g: Geometry, c: Rgb, x: nat, y: nat)
    requires g.srcW > 0 && g.srcH > 0 && Uniform(src, g, c) && x < g.dstW && y < g.dstH
    ensures IsColour(src, g, x, y, c)
  {
    var xs, ys := g.XSpan(x), g.YSpan(y);
    SpanInBounds(x, g.srcW, g.dstW);
    SpanInBounds(y, g.srcH, g.dstH);
    SpanIsBehind(x, g.srcW, g.dstW);
    SpanIsBehind(y, g.srcH, g.dstH);
    hide Behind;
    BoxOfOne(src, 0, xs.lo, xs.hi, ys.lo, ys.hi, c.r);
    BoxOfOne(src, 1, xs.lo, xs.hi, ys.lo, ys.hi, c.g);
    BoxOfOne(src, 2, xs.lo, xs.hi, ys.lo, ys.hi, c.b);
    Area1(xs, ys);
    AverageOfOne(Area(xs, ys), c.r);
    AverageOfOne(Area(xs, ys), c.g);
    AverageOfOne(Area(xs, ys), c.b);
    assert IsBoxColour(src, xs.lo, xs.hi, ys.lo, ys.hi, c);
  }

  lemma BlockOfOne(g: Geometry, cx: nat, cy: nat, c: Rgb)
    requires 2 * cx < g.dstW && 2 * cy < g.dstH
    ensures IsBlockColour(g, cx, cy, Four(c, c, c, c), c)
  {
  }

  lemma BlockColourIsUnique(g: Geometry, cx: int, cy: int, of: Four, c: Rgb, c': Rgb)
    requires IsBlockColour(g, cx, cy, of, c) && IsBlockColour(g, cx, cy, of, c')
    ensures c == c'
  {
    hide Averages, OverBlock;
    var n := OverBlock(g, cx, cy, 1, 1, 1, 1);
    AverageIsUnique(c.r, c'.r, n, OverBlock(g, cx, cy, of.a.r, of.b.r, of.c.r, of.d.r));
    AverageIsUnique(c.g, c'.g, n, OverBlock(g, cx, cy, of.a.g, of.b.g, of.c.g, of.d.g));
    AverageIsUnique(c.b, c'.b, n, OverBlock(g, cx, cy, of.a.b, of.b.b, of.c.b, of.d.b));
  }

  lemma UniformChroma(src: Source, g: Geometry, c: Rgb, cx: nat, cy: nat)
    requires Covers(src, g) && Uniform(src, g, c) && cx < g.ChromaW() && cy < g.RowPairs()
    ensures Want(src, g, CbS(cx, cy)) == Cb(c.r, c.g, c.b) && Want(src, g, CrS(cx, cy)) == Cr(c.r, c.g, c.b)
  {
    hide Uniform, IsColour, IsBlockColour, Want;
    var x, y, of := 2 * cx, 2 * cy, Four(c, c, c, c);
    UniformColour(src, g, c, x, y);
    if x + 1 < g.dstW { UniformColour(src, g, c, x + 1, y); }
    if y + 1 < g.dstH { UniformColour(src, g, c, x, y + 1); }
    if x + 1 < g.dstW && y + 1 < g.dstH { UniformColour(src, g, c, x + 1, y + 1); }
    var c' := ChromaIsOfBytes(src, g, cx, cy, of);
    BlockOfOne(g, cx, cy, c);
    BlockColourIsUnique(g, cx, cy, of, c, c');
  }

  /** An image of one colour converts to that colour everywhere: red stays red and blue stays blue. */
  lemma OneColourStays(src: Source, g: Geometry, c: Rgb, s: Sample)
    requires Covers(src, g) && Uniform(src, g, c) && InFrame(g, s)
    ensures Want(src, g, s) == match s
                               case LumaS(_, _) => Luma(c.r, c.g, c.b)
                               case CbS(_, _) => Cb(c.r, c.g, c.b)
                               case CrS(_, _) => Cr(c.r, c.g, c.b)
  {
    match s
    case LumaS(x, y) =>
      UniformColour(src, g, c, x, y);
      TheColour(src, g, x, y, c);
    case CbS(cx, cy) => UniformChroma(src, g, c, cx, cy);
    case CrS(cx, cy) => UniformChroma(src, g, c, cx, cy);
  }
}
