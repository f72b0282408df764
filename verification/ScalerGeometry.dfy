/** Sizes and source ranges of the agent's scaler: `targetSize` and `makeSpans`, and the box sums they induce. */
module ScalerGeometry {

  // ----- targetSize -----

  /** `v &= ^1` on a non-negative number. */
  function Even(v: nat): nat { v - v % 2 }

  function AtLeastTwo(v: nat): nat { if v < 2 then 2 else v }

  /** Width and height before the floor of two is applied. */
  function Fitted(srcW: nat, srcH: nat, maxWidth: nat): (nat, nat) {
    if srcW > maxWidth then (Even(maxWidth), Even(srcH * maxWidth / srcW)) else (Even(srcW), Even(srcH))
  }

  function TargetSize(srcW: nat, srcH: nat, maxWidth: nat): (nat, nat) {
    (AtLeastTwo(Fitted(srcW, srcH, maxWidth).0), AtLeastTwo(Fitted(srcW, srcH, maxWidth).1))
  }

  lemma DivBounds(a: nat, d: nat)
    requires d > 0
    ensures d * (a / d) <= a < d * (a / d) + d
  {
  }

  lemma DivAtMost(a: nat, b: nat, d: nat)
    requires d > 0 && a <= b * d
    ensures a / d <= b
  {
  }

  /** The scaled height before the floor of two keeps the aspect ratio as closely as an even number can. */
  lemma FittedHeight(srcW: nat, srcH: nat, maxWidth: nat)
    requires srcW > maxWidth
    ensures var h := Even(srcH * maxWidth / srcW); h <= srcH && h * srcW <= srcH * maxWidth < (h + 2) * srcW
  {
    var a := srcH * maxWidth;
    var q, h := a / srcW, Even(a / srcW);
    DivBounds(a, srcW);
    Monotone(maxWidth, srcW, srcH);
    assert a <= srcH * srcW;
    DivAtMost(a, srcH, srcW);
    Monotone(h, q, srcW);
    Monotone(q + 1, h + 2, srcW);
    assert (q + 1) * srcW == srcW * q + srcW;
  }

  /** The aspect ratio, as closely as an even height of at least two keeps it. */
  predicate KeepsAspect(srcW: nat, srcH: nat, maxWidth: nat, h: nat) {
    srcH * maxWidth < (h + 2) * srcW && (h > 2 ==> h * srcW <= srcH * maxWidth)
  }

  lemma EvenFits(v: nat)
    ensures var e := AtLeastTwo(Even(v)); e % 2 == 0 && e >= 2 && v - e < 2 && (if v < 2 then e == 2 else e <= v)
  {
  }

  lemma FloorOfTwo(srcW: nat, srcH: nat, maxWidth: nat, h: nat)
    requires h % 2 == 0 && h <= srcH && h * srcW <= srcH * maxWidth < (h + 2) * srcW
    ensures var e := AtLeastTwo(h); e % 2 == 0 && e >= 2 && (srcH >= 2 ==> e <= srcH) && KeepsAspect(srcW, srcH, maxWidth, e)
  {
    Monotone(h + 2, AtLeastTwo(h) + 2, srcW);
  }

  lemma ScaledSize(srcW: nat, srcH: nat, maxWidth: nat)
    requires srcW > maxWidth
    ensures var (w, h) := TargetSize(srcW, srcH, maxWidth);
            && w == AtLeastTwo(Even(maxWidth))
            && h % 2 == 0 && h >= 2 && (srcH >= 2 ==> h <= srcH) && KeepsAspect(srcW, srcH, maxWidth, h)
  {
    hide AtLeastTwo, KeepsAspect;
    FittedHeight(srcW, srcH, maxWidth);
    FloorOfTwo(srcW, srcH, maxWidth, Even(srcH * maxWidth / srcW));
  }

  /** Both dimensions are even and at least two, never above a source of at least two by two or (for the
      width) the limit, and when scaling the height is the fitted one unless the floor of two replaced it. */
  lemma TargetSizeFits(srcW: nat, srcH: nat, maxWidth: nat)
    ensures var (w, h) := TargetSize(srcW, srcH, maxWidth);
            && w % 2 == 0 && h % 2 == 0 && w >= 2 && h >= 2
            && (srcW >= 2 ==> w <= srcW) && (srcH >= 2 ==> h <= srcH)
            && (maxWidth >= 2 ==> w <= maxWidth) && (srcW > maxWidth ==> maxWidth - w < 2)
            && (srcW > maxWidth ==> KeepsAspect(srcW, srcH, maxWidth, h))
            && (2 <= srcW <= maxWidth && srcH >= 2 ==> srcW - w < 2 && srcH - h < 2)
  {
    if srcW > maxWidth {
      hide TargetSize, AtLeastTwo, KeepsAspect;
      ScaledSize(srcW, srcH, maxWidth);
      EvenFits(maxWidth);
    } else {
      hide Even, AtLeastTwo, KeepsAspect;
      EvenFits(srcW);
      EvenFits(srcH);
    }
  }

  lemma Monotone(a: nat, b: nat, k: nat)
    requires a <= b
    ensures a * k <= b * k
  {
  }

  // ----- makeSpans -----

  datatype Span = Span(lo: int, hi: int)

  /** The boundary before destination index `i`. */
  function Cut(i: nat, srcLen: nat, dstLen: nat): nat
    requires dstLen > 0
  {
    i * srcLen / dstLen
  }

  function SpanAt(i: nat, srcLen: nat, dstLen: nat): Span
    requires dstLen > 0
  {
    var lo, hi := Cut(i, srcLen, dstLen), Cut(i + 1, srcLen, dstLen);
    var hi' := if hi <= lo then lo + 1 else hi;
    Span(lo, if hi' > srcLen then srcLen else hi')
  }

  function Spans(srcLen: nat, dstLen: nat): (s: seq<Span>)
    ensures |s| == dstLen
  {
    seq(dstLen, i requires 0 <= i < dstLen => SpanAt(i, srcLen, dstLen))
  }

  method MakeSpans(srcLen: nat, dstLen: nat) returns (out: array<Span>)
    ensures fresh(out) && out[..] == Spans(srcLen, dstLen)
  {
    out := new Span[dstLen](_ => Span(0, 0));
    for i := 0 to dstLen
      invariant forall k :: 0 <= k < i ==> out[k] == SpanAt(k, srcLen, dstLen)
    {
      var lo := i * srcLen / dstLen;
      var hi := (i + 1) * srcLen / dstLen;
      if hi <= lo {
        hi := lo + 1;
      }
      if hi > srcLen {
        hi := srcLen;
      }
      out[i] := Span(lo, hi);
    }
  }

  lemma CutMonotone(i: nat, srcLen: nat, dstLen: nat)
    requires dstLen > 0
    ensures Cut(i, srcLen, dstLen) + srcLen / dstLen <= Cut(i + 1, srcLen, dstLen)
    ensures Cut(i + 1, srcLen, dstLen) <= Cut(i, srcLen, dstLen) + srcLen / dstLen + (if srcLen % dstLen == 0 then 0 else 1)
  {
    var a, q, r := i * srcLen, srcLen / dstLen, srcLen % dstLen;
    assert (i + 1) * srcLen == a + srcLen;
    DivBounds(a, dstLen);
    DivBounds(a + srcLen, dstLen);
    assert srcLen == dstLen * q + r;
    var c, c' := a / dstLen, (a + srcLen) / dstLen;
    assert dstLen * (c + q) == dstLen * c + dstLen * q;
    assert dstLen * c' + dstLen > a + srcLen >= dstLen * (c + q);
    AtMost(c + q, c' + 1, dstLen);
    assert dstLen * (c + q + 2) == dstLen * c + dstLen * q + 2 * dstLen;
    assert dstLen * c' <= a + srcLen < dstLen * (c + q + 2);
    AtMost(c', c + q + 2, dstLen);
    if r == 0 {
      assert dstLen * (c + q + 1) == dstLen * c + dstLen * q + dstLen;
      AtMost(c', c + q + 1, dstLen);
    }
  }

  lemma AtMost(a: int, b: int, d: nat)
    requires d > 0 && d * a < d * b
    ensures a < b
  {
  }

  lemma CutEnds(srcLen: nat, dstLen: nat)
    requires dstLen > 0
    ensures Cut(0, srcLen, dstLen) == 0 && Cut(dstLen, srcLen, dstLen) == srcLen
  {
    assert dstLen * srcLen == srcLen * dstLen;
    DivBounds(dstLen * srcLen, dstLen);
    var q := dstLen * srcLen / dstLen;
    assert dstLen * (q + 1) == dstLen * q + dstLen;
    AtMost(srcLen, q + 1, dstLen);
  }

  lemma {:induction false} CutAtMost(i: nat, j: nat, srcLen: nat, dstLen: nat)
    requires dstLen > 0 && i <= j
    ensures Cut(i, srcLen, dstLen) <= Cut(j, srcLen, dstLen)
    decreases j - i
  {
    if i < j {
      CutMonotone(i, srcLen, dstLen);
      assert srcLen / dstLen >= 0;
      CutAtMost(i + 1, j, srcLen, dstLen);
    }
  }

  /** Every span of a non-empty axis is non-empty and inside it, so no average is over nothing. */
  lemma SpanInBounds(i: nat, srcLen: nat, dstLen: nat)
    requires srcLen > 0 && i < dstLen
    ensures var s := SpanAt(i, srcLen, dstLen); 0 <= s.lo < s.hi <= srcLen
  {
    CutEnds(srcLen, dstLen);
    CutAtMost(i + 1, dstLen, srcLen, dstLen);
    assert i * srcLen < dstLen * srcLen by { Monotone(i + 1, dstLen, srcLen); assert (i + 1) * srcLen == i * srcLen + srcLen; }
    DivBounds(i * srcLen, dstLen);
    AtMost(Cut(i, srcLen, dstLen), srcLen, dstLen);
  }

  /** On an axis of nothing every span is empty. */
  lemma NothingHasNoSpans(i: nat, dstLen: nat)
    requires i < dstLen
    ensures SpanAt(i, 0, dstLen) == Span(0, 0)
  {
    assert i * 0 == 0 && (i + 1) * 0 == 0;
    DivBounds(0, dstLen);
  }

  /** Consecutive spans meet exactly, the first starts at 0 and the last ends at the end. */
  ghost predicate Partitions(s: seq<Span>, srcLen: nat) {
    && s != [] && s[0].lo == 0 && s[|s| - 1].hi == srcLen
    && (forall i :: 0 <= i < |s| ==> s[i].lo < s[i].hi)
    && (forall i :: 0 <= i < |s| - 1 ==> s[i].hi == s[i + 1].lo)
  }

  /** When not enlarging, no clamp applies: a span is what lies between two consecutive cuts, and its
      width is the quotient rounded down or up. */
  lemma SpanWidth(i: nat, srcLen: nat, dstLen: nat)
    requires i < dstLen <= srcLen
    ensures var s := SpanAt(i, srcLen, dstLen);
            && s == Span(Cut(i, srcLen, dstLen), Cut(i + 1, srcLen, dstLen))
            && srcLen / dstLen <= s.hi - s.lo <= srcLen / dstLen + (if srcLen % dstLen == 0 then 0 else 1)
  {
    CutMonotone(i, srcLen, dstLen);
    DivBounds(srcLen, dstLen);
    assert srcLen / dstLen >= 1;
    CutEnds(srcLen, dstLen);
    CutAtMost(i + 1, dstLen, srcLen, dstLen);
  }

  lemma {:induction false} ChainReaches(s: seq<Span>, srcLen: nat, k: nat)
    requires Partitions(s, srcLen) && k < |s|
    ensures s[k].hi >= k + 1
  {
    if k > 0 {
      ChainReaches(s, srcLen, k - 1);
    }
  }

  /** `makeSpans` partitions the source axis exactly when it does not enlarge it. */
  lemma SpansPartition(srcLen: nat, dstLen: nat)
    requires dstLen > 0 && srcLen > 0
    ensures Partitions(Spans(srcLen, dstLen), srcLen) <==> dstLen <= srcLen
  {
    var s := Spans(srcLen, dstLen);
    if dstLen <= srcLen {
      CutEnds(srcLen, dstLen);
      forall i | 0 <= i < dstLen
        ensures s[i] == Span(Cut(i, srcLen, dstLen), Cut(i + 1, srcLen, dstLen)) && s[i].lo < s[i].hi
      {
        SpanWidth(i, srcLen, dstLen);
        SpanInBounds(i, srcLen, dstLen);
      }
    } else if Partitions(s, srcLen) {
      ChainReaches(s, srcLen, dstLen - 1);
    }
  }

  // ----- Box sums -----

  /** The sum of `f` over columns lo..hi of row `y`. */
  function RowSum(f: (int, int) -> int, y: int, lo: int, hi: int): int
    decreases hi - lo
  {
    if hi <= lo then 0 else RowSum(f, y, lo, hi - 1) + f(hi - 1, y)
  }

  /** The sum of `f` over a rectangle. */
  function BoxSum(f: (int, int) -> int, xs: Span, ys: Span): int
    decreases ys.hi - ys.lo
  {
    if ys.hi <= ys.lo then 0 else BoxSum(f, xs, Span(ys.lo, ys.hi - 1)) + RowSum(f, ys.hi - 1, xs.lo, xs.hi)
  }

  lemma {:induction false} RowSumJoins(f: (int, int) -> int, y: int, a: int, b: int, c: int)
    requires a <= b <= c
    ensures RowSum(f, y, a, c) == RowSum(f, y, a, b) + RowSum(f, y, b, c)
    decreases c - b
  {
    if b < c {
      RowSumJoins(f, y, a, b, c - 1);
    }
  }

  lemma {:induction false} BoxesJoinAcross(f: (int, int) -> int, a: int, b: int, c: int, ys: Span)
    requires a <= b <= c
    ensures BoxSum(f, Span(a, c), ys) == BoxSum(f, Span(a, b), ys) + BoxSum(f, Span(b, c), ys)
    decreases ys.hi - ys.lo
  {
    if ys.lo < ys.hi {
      BoxesJoinAcross(f, a, b, c, Span(ys.lo, ys.hi - 1));
      RowSumJoins(f, ys.hi - 1, a, b, c);
    }
  }

  lemma {:induction false} BoxesJoinDown(f: (int, int) -> int, xs: Span, a: int, b: int, c: int)
    requires a <= b <= c
    ensures BoxSum(f, xs, Span(a, c)) == BoxSum(f, xs, Span(a, b)) + BoxSum(f, xs, Span(b, c))
    decreases c - b
  {
    if b < c {
      BoxesJoinDown(f, xs, a, b, c - 1);
    }
  }

  /** The box sums of the first `n` destination columns of one destination row. */
  function BoxesInRow(f: (int, int) -> int, xr: seq<Span>, ys: Span, n: nat): int
    requires n <= |xr|
  {
    if n == 0 then 0 else BoxesInRow(f, xr, ys, n - 1) + BoxSum(f, xr[n - 1], ys)
  }

  /** The box sums of all destination pixels of the first `m` destination rows. */
  function AllBoxes(f: (int, int) -> int, xr: seq<Span>, yr: seq<Span>, m: nat): int
    requires m <= |yr|
  {
    if m == 0 then 0 else AllBoxes(f, xr, yr, m - 1) + BoxesInRow(f, xr, yr[m - 1], |xr|)
  }

  lemma {:induction false} RowOfBoxes(f: (int, int) -> int, xr: seq<Span>, srcW: nat, ys: Span, n: nat)
    requires Partitions(xr, srcW) && 1 <= n <= |xr|
    ensures 0 <= xr[n - 1].hi && BoxesInRow(f, xr, ys, n) == BoxSum(f, Span(0, xr[n - 1].hi), ys)
  {
    if n > 1 {
      RowOfBoxes(f, xr, srcW, ys, n - 1);
      BoxesJoinAcross(f, 0, xr[n - 1].lo, xr[n - 1].hi, ys);
    } else {
      assert BoxesInRow(f, xr, ys, 0) == 0;
      assert xr[0] == Span(0, xr[0].hi);
    }
  }

  lemma {:induction false} ColumnOfRows(f: (int, int) -> int, xr: seq<Span>, yr: seq<Span>, srcW: nat, srcH: nat, m: nat)
    requires Partitions(xr, srcW) && Partitions(yr, srcH) && 1 <= m <= |yr|
    ensures 0 <= yr[m - 1].hi && AllBoxes(f, xr, yr, m) == BoxSum(f, Span(0, srcW), Span(0, yr[m - 1].hi))
  {
    RowOfBoxes(f, xr, srcW, yr[m - 1], |xr|);
    if m > 1 {
      ColumnOfRows(f, xr, yr, srcW, srcH, m - 1);
      BoxesJoinDown(f, Span(0, srcW), 0, yr[m - 1].lo, yr[m - 1].hi);
    } else {
      assert AllBoxes(f, xr, yr, 0) == 0;
      assert yr[0] == Span(0, yr[0].hi);
    }
  }

  /** Downscaling loses and repeats no source pixel: whatever is summed, the boxes of all destination pixels
      add up to the whole source. */
  lemma BoxesCoverTheSource(f: (int, int) -> int, srcW: nat, srcH: nat, dstW: nat, dstH: nat)
    requires 0 < dstW <= srcW && 0 < dstH <= srcH
    ensures AllBoxes(f, Spans(srcW, dstW), Spans(srcH, dstH), dstH) == BoxSum(f, Span(0, srcW), Span(0, srcH))
  {
    SpansPartition(srcW, dstW);
    SpansPartition(srcH, dstH);
    ColumnOfRows(f, Spans(srcW, dstW), Spans(srcH, dstH), srcW, srcH, dstH);
  }

  /** Whatever is captured, from two by two pixels on, and whatever the width asked for: the size chosen is never
      larger than the source, so its spans partition both axes and its boxes cover the source. */
  lemma ChosenSizeCoversTheSource(f: (int, int) -> int, srcW: nat, srcH: nat, maxWidth: nat)
    requires srcW >= 2 && srcH >= 2
    ensures var (w, h) := TargetSize(srcW, srcH, maxWidth);
            && Partitions(Spans(srcW, w), srcW) && Partitions(Spans(srcH, h), srcH)
            && AllBoxes(f, Spans(srcW, w), Spans(srcH, h), h) == BoxSum(f, Span(0, srcW), Span(0, srcH))
  {
    var (w, h) := TargetSize(srcW, srcH, maxWidth);
    TargetSizeFits(srcW, srcH, maxWidth);
    SpansPartition(srcW, w);
    SpansPartition(srcH, h);
    BoxesCoverTheSource(f, srcW, srcH, w, h);
  }
}
