/** Colour from source image to frame: what averaging and conversion together can produce. */
module ScalerColour {
  import opened Basics
  import opened Colour
  import opened ScalerGeometry
  import opened ScalerSpec

  /** All values of `f` over a rectangle lie in [lo, hi]. */
  ghost predicate Within(f: (int, int) -> int, xs: Span, ys: Span, lo: int, hi: int) {
    forall x, y :: xs.lo <= x < xs.hi && ys.lo <= y < ys.hi ==> lo <= f(x, y) <= hi
  }

  lemma {:induction false} RowSumWithin(f: (int, int) -> int, xs: Span, ys: Span, y: int, n: int, lo: int, hi: int)
    requires Within(f, xs, ys, lo, hi) && ys.lo <= y < ys.hi && xs.lo <= n <= xs.hi
    ensures (n - xs.lo) * lo <= RowSum(f, y, xs.lo, n) <= (n - xs.lo) * hi
    decreases n - xs.lo
  {
    if xs.lo < n {
      RowSumWithin(f, xs, ys, y, n - 1, lo, hi);
      assert lo <= f(n - 1, y) <= hi;
      assert (n - xs.lo) * lo == (n - 1 - xs.lo) * lo + lo && (n - xs.lo) * hi == (n - 1 - xs.lo) * hi + hi;
    }
  }

  lemma {:induction false} BoxSumWithin(f: (int, int) -> int, xs: Span, ys: Span, m: int, lo: int, hi: int)
    requires Within(f, xs, ys, lo, hi) && ys.lo <= m <= ys.hi && xs.lo <= xs.hi
    ensures Area(xs, Span(ys.lo, m)) * lo <= BoxSum(f, xs, Span(ys.lo, m)) <= Area(xs, Span(ys.lo, m)) * hi
    decreases m - ys.lo
  {
    if ys.lo < m {
      BoxSumWithin(f, xs, ys, m - 1, lo, hi);
      RowSumWithin(f, xs, ys, m - 1, xs.hi, lo, hi);
      OneMoreRow(xs, ys.lo, m, lo);
      OneMoreRow(xs, ys.lo, m, hi);
    }
  }

  lemma OneMoreRow(xs: Span, top: int, m: int, v: int)
    ensures Area(xs, Span(top, m)) * v == Area(xs, Span(top, m - 1)) * v + (xs.hi - xs.lo) * v
  {
  }

  lemma QuotientWithin(sum: int, n: int, lo: int, hi: int)
    requires n > 0 && n * lo <= sum <= n * hi
    ensures lo <= sum / n <= hi
  {
    var q := sum / n;
    assert n * q <= sum < n * (q + 1) by { assert n * (q + 1) == n * q + n; }
    Less(n, lo, q + 1);
    Less(n, q, hi + 1) by { assert n * (hi + 1) == n * hi + n; }
  }

  lemma Less(n: int, a: int, b: int)
    requires n > 0 && n * a < n * b
    ensures a < b
  {
  }

  /** A box average lies between the smallest and the largest value averaged. */
  lemma AverageWithin(f: (int, int) -> int, xs: Span, ys: Span, lo: int, hi: int)
    requires Within(f, xs, ys, lo, hi) && xs.lo < xs.hi && ys.lo < ys.hi
    ensures lo <= Average(f, xs, ys) <= hi
  {
    BoxSumWithin(f, xs, ys, ys.hi, lo, hi);
    Area1(xs, ys);
    QuotientWithin(BoxSum(f, xs, ys), Area(xs, ys), lo, hi);
  }

  lemma Area1(xs: Span, ys: Span)
    requires xs.lo < xs.hi && ys.lo < ys.hi
    ensures Area(xs, ys) > 0
  {
  }

  predicate Between(c: Rgb, lo: int, hi: int) {
    lo <= c.r <= hi && lo <= c.g <= hi && lo <= c.b <= hi
  }

  /** All three channels of the part of the image that the scaler reads lie in [lo, hi]. */
  ghost predicate ImageWithin(src: Source, g: Geometry, lo: int, hi: int) {
    forall k: nat :: k < 3 ==> Within(Channel(src, k), Span(0, g.srcW), Span(0, g.srcH), lo, hi)
  }

  lemma ScaledWithin(src: Source, g: Geometry, x: nat, y: nat, lo: int, hi: int)
    requires Covers(src, g) && ImageWithin(src, g, lo, hi) && x < g.dstW && y < g.dstH
    ensures Between(Scaled(src, g, x, y), lo, hi)
  {
    var xs, ys := g.XSpan(x), g.YSpan(y);
    SpanInBounds(x, g.srcW, g.dstW);
    SpanInBounds(y, g.srcH, g.dstH);
    assert forall k: nat :: k < 3 ==> Within(Channel(src, k), Span(0, g.srcW), Span(0, g.srcH), lo, hi);
    AverageWithin(Channel(src, 0), xs, ys, lo, hi);
    AverageWithin(Channel(src, 1), xs, ys, lo, hi);
    AverageWithin(Channel(src, 2), xs, ys, lo, hi);
  }

  lemma PlusWithin(a: Rgb, n: int, b: Rgb, m: int, lo: int, hi: int)
    requires Between(a, n * lo, n * hi) && Between(b, m * lo, m * hi)
    ensures Between(a.Plus(b), (n + m) * lo, (n + m) * hi)
  {
  }

  lemma DividedWithin(c: Rgb, n: int, lo: int, hi: int)
    requires n > 0 && Between(c, n * lo, n * hi)
    ensures Between(c.DividedBy(n), lo, hi)
  {
    QuotientWithin(c.r, n, lo, hi);
    QuotientWithin(c.g, n, lo, hi);
    QuotientWithin(c.b, n, lo, hi);
  }

  lemma BlockRowWithin(src: Source, g: Geometry, cx: nat, y: nat, lo: int, hi: int)
    requires Covers(src, g) && ImageWithin(src, g, lo, hi) && 2 * cx < g.dstW && y < g.dstH
    ensures var end := Shared(cx, g.dstW).hi; Between(BlockRow(src, g, cx, y, end), (end - 2 * cx) * lo, (end - 2 * cx) * hi)
  {
    ScaledWithin(src, g, 2 * cx, y, lo, hi);
    var first := Scaled(src, g, 2 * cx, y);
    assert Between(first, 1 * lo, 1 * hi);
    if 2 * cx + 1 < g.dstW {
      ScaledWithin(src, g, 2 * cx + 1, y, lo, hi);
      PlusWithin(first, 1, Scaled(src, g, 2 * cx + 1, y), 1, lo, hi);
      assert BlockRow(src, g, cx, y, 2 * cx + 2) == first.Plus(Scaled(src, g, 2 * cx + 1, y));
    } else {
      assert BlockRow(src, g, cx, y, 2 * cx + 1) == first;
    }
  }

  lemma BlockAverageWithin(src: Source, g: Geometry, cx: nat, cy: nat, lo: int, hi: int)
    requires Covers(src, g) && ImageWithin(src, g, lo, hi) && 2 * cx < g.dstW && 2 * cy < g.dstH
    ensures Between(BlockAverage(src, g, cx, cy), lo, hi)
  {
    var xs, ys := Shared(cx, g.dstW), Shared(cy, g.dstH);
    var w, sum := xs.hi - xs.lo, BlockSum(src, g, cx, cy, ys.hi);
    var first := BlockRow(src, g, cx, 2 * cy, xs.hi);
    BlockRowWithin(src, g, cx, 2 * cy, lo, hi);
    BlockIsNotEmpty(g, cx, cy);
    CountIsArea(xs, cy, g.dstH);
    if 2 * cy + 1 < g.dstH {
      BlockRowWithin(src, g, cx, 2 * cy + 1, lo, hi);
      PlusWithin(first, w, BlockRow(src, g, cx, 2 * cy + 1, xs.hi), w, lo, hi);
      DividedWithin(sum, w + w, lo, hi);
    } else {
      DividedWithin(sum, w, lo, hi);
    }
  }

  lemma ChannelsAreBytes(src: Source, g: Geometry)
    ensures ImageWithin(src, g, 0, 255)
  {
  }

  /** End to end, for any image: each average is a byte, luma never meets its clamps, and chroma before
      saturation lies in [1, 256], reaching 256 only where the averaged block is pure blue or pure red. */
  lemma NoChannelOverflows(src: Source, g: Geometry, s: Sample)
    requires Covers(src, g) && InFrame(g, s)
    ensures s.LumaS? ==> var c := Scaled(src, g, s.x, s.y);
              Between(c, 0, 255) && Want(src, g, s) == RawLuma(c.r, c.g, c.b)
    ensures !s.LumaS? ==> var c := BlockAverage(src, g, s.cx, s.cy);
              Between(c, 0, 255) && 1 <= RawCb(c.r, c.g, c.b) <= 256 && 1 <= RawCr(c.r, c.g, c.b) <= 256
    ensures s.CbS? ==> var c := BlockAverage(src, g, s.cx, s.cy);
              Want(src, g, s) == if c == Rgb(0, 0, 255) then 255 else RawCb(c.r, c.g, c.b)
    ensures s.CrS? ==> var c := BlockAverage(src, g, s.cx, s.cy);
              Want(src, g, s) == if c == Rgb(255, 0, 0) then 255 else RawCr(c.r, c.g, c.b)
  {
    ChannelsAreBytes(src, g);
    match s
    case LumaS(x, y) =>
      ScaledWithin(src, g, x, y, 0, 255);
      var c := Scaled(src, g, x, y);
      LumaNeedsNoClamp(c.r, c.g, c.b, 0, 255);
    case CbS(cx, cy) =>
      BlockAverageWithin(src, g, cx, cy, 0, 255);
      var c := BlockAverage(src, g, cx, cy);
      ChromaRange(c.r, c.g, c.b);
      ChromaSaturation(c.r, c.g, c.b);
    case CrS(cx, cy) =>
      BlockAverageWithin(src, g, cx, cy, 0, 255);
      var c := BlockAverage(src, g, cx, cy);
      ChromaRange(c.r, c.g, c.b);
      ChromaSaturation(c.r, c.g, c.b);
  }

  /** Luma never leaves the range of the image: no sample is darker or brighter than some channel read. */
  lemma LumaStaysInRange(src: Source, g: Geometry, x: nat, y: nat, lo: Byte, hi: Byte)
    requires Covers(src, g) && ImageWithin(src, g, lo, hi) && x < g.dstW && y < g.dstH
    ensures lo <= LumaAt(src, g, x, y) <= hi
  {
    ScaledWithin(src, g, x, y, lo, hi);
    var c := Scaled(src, g, x, y);
    ScaledWithin(src, g, x, y, 0, 255) by { ChannelsAreBytes(src, g); }
    LumaNeedsNoClamp(c.r, c.g, c.b, lo, hi);
  }

  /** A uniformly grey image converts to that grey and neutral chroma everywhere. */
  lemma GreyStaysGrey(src: Source, g: Geometry, v: Byte, s: Sample)
    requires Covers(src, g) && ImageWithin(src, g, v, v) && InFrame(g, s)
    ensures Want(src, g, s) == if s.LumaS? then v else 128
  {
    match s
    case LumaS(x, y) =>
      ScaledWithin(src, g, x, y, v, v);
      GreyIsNeutral(v);
    case CbS(cx, cy) =>
      BlockAverageWithin(src, g, cx, cy, v, v);
      GreyIsNeutral(v);
    case CrS(cx, cy) =>
      BlockAverageWithin(src, g, cx, cy, v, v);
      GreyIsNeutral(v);
  }
}
