/**
 Blending a subtitle rectangle over a picture in planar YUV (ffplay's blend_subrect): three
 pointers walk over the planes of the picture, the chroma planes at half resolution with the
 alpha of four pixels averaged.
 */
module SubtitleBlend {
  type Byte = x: int | 0 <= x < 256

  function Clip(a: int, lo: int, hi: int): int { if a < lo then lo else if a > hi then hi else a }

  lemma MulBounds(d: nat, a: Byte)
    ensures 0 <= d * a <= 255 * d
  {
  }

  lemma Convex(a: Byte, x: Byte, y: Byte)
    ensures var s := x * (255 - a) + y * a;
      && (x <= y ==> 255 * x <= s <= 255 * y) && (y <= x ==> 255 * y <= s <= 255 * x)
  {
    assert x * (255 - a) + y * a == 255 * x + (y - x) * a;
    if x <= y {
      MulBounds(y - x, a);
    } else {
      MulBounds(x - y, a);
      assert (y - x) * a == -((x - y) * a);
    }
  }

  /** r is the mix of old and new by alpha a of 255, rounded down. */
  predicate Mixed(a: Byte, old_: Byte, new_: Byte, r: int) {
    255 * r <= 255 * old_ + a * (new_ - old_) < 255 * (r + 1)
  }

  /** ALPHA_BLEND with shift 0 */
  function AlphaBlend(a: Byte, old_: Byte, new_: Byte): (r: Byte)
    ensures Mixed(a, old_, new_, r)
    ensures (old_ <= new_ ==> old_ <= r <= new_) && (new_ <= old_ ==> new_ <= r <= old_)
    ensures (a == 0 ==> r == old_) && (a == 255 ==> r == new_)
  {
    Convex(a, old_, new_);
    assert old_ * (255 - a) + new_ * a == 255 * old_ + a * (new_ - old_);
    (old_ * (255 - a) + new_ * a) / 255
  }

  /** Offset of column x in row y. */
  function Pos(stride: int, x: int, y: int): int { y * stride + x }

  lemma RowsApart(stride: nat, y: int, y': int)
    requires y < y'
    ensures y * stride + stride <= y' * stride
    decreases y' - y
  {
    if y + 1 < y' {
      RowsApart(stride, y, y' - 1);
    }
  }

  /** Different places have different offsets. */
  lemma PosInjective(stride: nat, x: int, y: int, x': int, y': int)
    requires 0 <= x < stride && 0 <= x' < stride && Pos(stride, x, y) == Pos(stride, x', y')
    ensures x == x' && y == y'
  {
    if y < y' {
      RowsApart(stride, y, y');
    } else if y' < y {
      RowsApart(stride, y', y);
    }
  }

  /** The plane holds h rows of at least w bytes. */
  ghost predicate Covers(len: nat, stride: nat, w: int, h: int) {
    w <= stride && h * stride <= len
  }

  lemma PosInside(len: nat, stride: nat, w: int, h: int, x: int, y: int)
    requires Covers(len, stride, w, h) && 0 <= x < w && 0 <= y < h
    ensures 0 <= Pos(stride, x, y) < len
  {
    RowsApart(stride, y, h);
    assert y * stride >= 0;
  }

  /** A rectangle to blend into one plane: where it goes, and its colour and alpha at each of its places. */
  datatype Patch = Patch(x0: int, y0: int, w: int, h: int, colour: (int, int) -> Byte, alpha: (int, int) -> Byte)

  /** Place (i, j) of the patch comes before (x, y) in the order of the walk. */
  predicate Walked(p: Patch, i: int, j: int, x: int, y: int) {
    0 <= i < p.w && 0 <= j && (j < y || (j == y && i < x))
  }

  /** What should be at column c, row r when the walk has come to (x, y). */
  function Expected(p: Patch, before: Byte, c: int, r: int, x: int, y: int): Byte {
    var i, j := c - p.x0, r - p.y0;
    if Walked(p, i, j, x, y) then AlphaBlend(p.alpha(i, j), before, p.colour(i, j)) else before
  }

  /** The plane, place by place, when the walk has come to (x, y). */
  ghost predicate BlendedUpTo(now: seq<Byte>, before: seq<Byte>, stride: nat, p: Patch, x: int, y: int) {
    && |now| == |before|
    && forall c, r :: 0 <= c < stride && 0 <= Pos(stride, c, r) < |now| ==>
         now[Pos(stride, c, r)] == Expected(p, before[Pos(stride, c, r)], c, r, x, y)
  }

  /** The patch lies inside the plane. */
  ghost predicate Fits(p: Patch, len: nat, stride: nat) {
    p.x0 >= 0 && p.y0 >= 0 && p.w >= 0 && p.h >= 0 && Covers(len, stride, p.x0 + p.w, p.y0 + p.h)
  }

  /** One pixel of the walk. */
  method BlendPixel(plane: array<Byte>, stride: nat, ghost before: seq<Byte>, p: Patch, x: int, y: int, ptr: int)
    requires 0 <= x < p.w && 0 <= y < p.h && Fits(p, plane.Length, stride)
    requires ptr == Pos(stride, p.x0 + x, p.y0 + y)
    requires BlendedUpTo(plane[..], before, stride, p, x, y)
    modifies plane
    ensures BlendedUpTo(plane[..], before, stride, p, x + 1, y)
  {
    PosInside(plane.Length, stride, p.x0 + p.w, p.y0 + p.h, p.x0 + x, p.y0 + y);
    ghost var was := plane[..];
    assert plane[ptr] == was[Pos(stride, p.x0 + x, p.y0 + y)] == before[ptr];
    plane[ptr] := AlphaBlend(p.alpha(x, y), plane[ptr], p.colour(x, y));
    forall c, r | 0 <= c < stride && 0 <= Pos(stride, c, r) < plane.Length
      ensures plane[..][Pos(stride, c, r)] == Expected(p, before[Pos(stride, c, r)], c, r, x + 1, y)
    {
      if Pos(stride, c, r) == ptr {
        PosInjective(stride, c, r, p.x0 + x, p.y0 + y);
      } else {
        assert plane[..][Pos(stride, c, r)] == was[Pos(stride, c, r)];
      }
    }
  }

  /** Going on to the next row changes nothing. */
  lemma NextRow(now: seq<Byte>, before: seq<Byte>, stride: nat, p: Patch, y: int)
    requires BlendedUpTo(now, before, stride, p, p.w, y)
    ensures BlendedUpTo(now, before, stride, p, 0, y + 1)
  {
    forall c, r | 0 <= c < stride && 0 <= Pos(stride, c, r) < |now|
      ensures now[Pos(stride, c, r)] == Expected(p, before[Pos(stride, c, r)], c, r, 0, y + 1)
    {
    }
  }

  lemma NextRowStart(stride: int, x0: int, y: int)
    ensures Pos(stride, x0, y) + stride == Pos(stride, x0, y + 1)
  {
  }

  /** The subtitle rectangle; `pict` is its four planes, alpha last. */
  datatype Rect = Rect(x: int, y: int, w: int, h: int, luma: Source, cb: Source, cr: Source, alpha: Source)

  datatype Source = Source(data: seq<Byte>, stride: nat)

  function At(s: Source, x: int, y: int): Byte {
    var i := x + y * s.stride;
    if 0 <= i < |s.data| then s.data[i] else 0
  }

  function LumaPatch(r: Rect, imgw: int, imgh: int): Patch {
    var w, h := Clip(r.w, 0, imgw), Clip(r.h, 0, imgh);
    Patch(Clip(r.x, 0, imgw - w), Clip(r.y, 0, imgh - h), w, h, (x, y) => At(r.luma, x, y), (x, y) => At(r.alpha, x, y))
  }

  /** The mean of the four alphas under a chroma sample, rounded down. */
  function MeanAlpha(a: Source, x: int, y: int): Byte {
    (At(a, 2 * x, 2 * y) + At(a, 2 * x + 1, 2 * y) + At(a, 2 * x + 1, 2 * y + 1) + At(a, 2 * x, 2 * y + 1)) / 4
  }

  function ChromaPatch(r: Rect, src: Source, imgw: int, imgh: int): Patch {
    var l := LumaPatch(r, imgw, imgh);
    Patch(l.x0 / 2, l.y0 / 2, l.w / 2, l.h / 2, (x, y) => At(src, x, y), (x, y) => MeanAlpha(r.alpha, x, y))
  }

  /** The rectangle's own planes are as large as it says. */
  ghost predicate Complete(r: Rect) {
    && Covers(|r.luma.data|, r.luma.stride, r.w, r.h) && Covers(|r.alpha.data|, r.alpha.stride, r.w, r.h)
    && Covers(|r.cb.data|, r.cb.stride, r.w / 2, r.h / 2) && Covers(|r.cr.data|, r.cr.stride, r.w / 2, r.h / 2)
  }

  /** Every source byte the walk asks for is there. */
  lemma SourcesInside(r: Rect, imgw: nat, imgh: nat, x: int, y: int)
    requires Complete(r)
    ensures var l := LumaPatch(r, imgw, imgh);
      && (0 <= x < l.w && 0 <= y < l.h ==>
            0 <= x + y * r.luma.stride < |r.luma.data| && 0 <= x + y * r.alpha.stride < |r.alpha.data|)
      && (0 <= x < l.w / 2 && 0 <= y < l.h / 2 ==>
            0 <= x + y * r.cb.stride < |r.cb.data| && 0 <= x + y * r.cr.stride < |r.cr.data| &&
            0 <= 2 * x + 1 < l.w && 0 <= 2 * y + 1 < l.h)
  {
    var l := LumaPatch(r, imgw, imgh);
    if 0 <= x < l.w && 0 <= y < l.h {
      PosInside(|r.luma.data|, r.luma.stride, r.w, r.h, x, y);
      PosInside(|r.alpha.data|, r.alpha.stride, r.w, r.h, x, y);
    }
    if 0 <= x < l.w / 2 && 0 <= y < l.h / 2 {
      PosInside(|r.cb.data|, r.cb.stride, r.w / 2, r.h / 2, x, y);
      PosInside(|r.cr.data|, r.cr.stride, r.w / 2, r.h / 2, x, y);
    }
  }

  lemma FitsSmaller(len: nat, stride: nat, w: int, h: int, w': int, h': int)
    requires w' <= w && h' <= h
    ensures Covers(len, stride, w, h) ==> Covers(len, stride, w', h')
  {
    if h' < h {
      RowsApart(stride, h', h);
    }
  }

  lemma PatchesFit(r: Rect, imgw: nat, imgh: nat, len: nat, stride: nat)
    ensures Covers(len, stride, imgw, imgh) ==> Fits(LumaPatch(r, imgw, imgh), len, stride)
    ensures Covers(len, stride, imgw / 2, imgh / 2) ==>
      Fits(ChromaPatch(r, r.cb, imgw, imgh), len, stride) && Fits(ChromaPatch(r, r.cr, imgw, imgh), len, stride)
  {
    var l := LumaPatch(r, imgw, imgh);
    FitsSmaller(len, stride, imgw, imgh, l.x0 + l.w, l.y0 + l.h);
    FitsSmaller(len, stride, imgw / 2, imgh / 2, l.x0 / 2 + l.w / 2, l.y0 / 2 + l.h / 2);
  }

  /** The luma loop. */
  method BlendLuma(lum: array<Byte>, stride: nat, p: Patch)
    requires Fits(p, lum.Length, stride)
    modifies lum
    ensures BlendedUpTo(lum[..], old(lum[..]), stride, p, 0, p.h)
  {
    var ptr := p.x0 + p.y0 * stride;
    for y := 0 to p.h
      invariant ptr == Pos(stride, p.x0, p.y0 + y)
      invariant BlendedUpTo(lum[..], old(lum[..]), stride, p, 0, y)
    {
      for x := 0 to p.w
        invariant ptr == Pos(stride, p.x0 + x, p.y0 + y)
        invariant BlendedUpTo(lum[..], old(lum[..]), stride, p, x, y)
      {
        BlendPixel(lum, stride, old(lum[..]), p, x, y, ptr);
        ptr := ptr + 1;
      }
      NextRow(lum[..], old(lum[..]), stride, p, y);
      NextRowStart(stride, p.x0, p.y0 + y);
      ptr := ptr + (stride - p.w);
    }
  }

  /** The chroma loop: two planes, two pointers. */
  method BlendChroma(cb: array<Byte>, cbStride: nat, cr: array<Byte>, crStride: nat, p: Patch, q: Patch)
    requires cb != cr && Fits(p, cb.Length, cbStride) && Fits(q, cr.Length, crStride)
    requires q.x0 == p.x0 && q.y0 == p.y0 && q.w == p.w && q.h == p.h
    modifies cb, cr
    ensures BlendedUpTo(cb[..], old(cb[..]), cbStride, p, 0, p.h)
    ensures BlendedUpTo(cr[..], old(cr[..]), crStride, q, 0, q.h)
  {
    var pb, pr := p.x0 + p.y0 * cbStride, q.x0 + q.y0 * crStride;
    for y := 0 to p.h
      invariant pb == Pos(cbStride, p.x0, p.y0 + y) && pr == Pos(crStride, q.x0, q.y0 + y)
      invariant BlendedUpTo(cb[..], old(cb[..]), cbStride, p, 0, y)
      invariant BlendedUpTo(cr[..], old(cr[..]), crStride, q, 0, y)
    {
      for x := 0 to p.w
        invariant pb == Pos(cbStride, p.x0 + x, p.y0 + y) && pr == Pos(crStride, q.x0 + x, q.y0 + y)
        invariant BlendedUpTo(cb[..], old(cb[..]), cbStride, p, x, y)
        invariant BlendedUpTo(cr[..], old(cr[..]), crStride, q, x, y)
      {
        BlendPixel(cb, cbStride, old(cb[..]), p, x, y, pb);
        BlendPixel(cr, crStride, old(cr[..]), q, x, y, pr);
        pb, pr := pb + 1, pr + 1;
      }
      NextRow(cb[..], old(cb[..]), cbStride, p, y);
      NextRow(cr[..], old(cr[..]), crStride, q, y);
      NextRowStart(cbStride, p.x0, p.y0 + y);
      NextRowStart(crStride, q.x0, q.y0 + y);
      pb, pr := pb + (cbStride - p.w), pr + (crStride - q.w);
    }
  }

  function Distance(a: int, b: int): nat { if a < b then b - a else a - b }

  /** The window is as large as the rectangle as far as that fits, and lies as close to its position as it can. */
  lemma WindowIsNearest(r: Rect, imgw: nat, imgh: nat, x: int, y: int)
    ensures var p := LumaPatch(r, imgw, imgh);
      && 0 <= p.w <= imgw && (0 <= r.w <= imgw ==> p.w == r.w) && (r.w < 0 ==> p.w == 0) && (r.w > imgw ==> p.w == imgw)
      && 0 <= p.h <= imgh && (0 <= r.h <= imgh ==> p.h == r.h) && (r.h < 0 ==> p.h == 0) && (r.h > imgh ==> p.h == imgh)
      && 0 <= p.x0 <= imgw - p.w && (0 <= x <= imgw - p.w ==> Distance(p.x0, r.x) <= Distance(x, r.x))
      && 0 <= p.y0 <= imgh - p.h && (0 <= y <= imgh - p.h ==> Distance(p.y0, r.y) <= Distance(y, r.y))
  {
  }

  /** Column c of row j lies in the window. */
  predicate InWindow(x0: int, y0: int, w: int, h: int, c: int, j: int) {
    x0 <= c < x0 + w && y0 <= j < y0 + h
  }

  ghost predicate LumaPlace(now: Byte, before: Byte, r: Rect, x0: int, y0: int, w: int, h: int, c: int, j: int) {
    if InWindow(x0, y0, w, h, c, j) then
      var a, l := c - x0 + (j - y0) * r.alpha.stride, c - x0 + (j - y0) * r.luma.stride;
      && 0 <= a < |r.alpha.data| && 0 <= l < |r.luma.data|
      && Mixed(r.alpha.data[a], before, r.luma.data[l], now)
    else now == before
  }

  /** The luma plane afterwards: in the window the exact mix, rounded down, of what was there and the rectangle. */
  ghost predicate LumaPlaces(now: seq<Byte>, before: seq<Byte>, stride: nat, r: Rect, imgw: nat, imgh: nat)
    requires Complete(r)
  {
    var p := LumaPatch(r, imgw, imgh);
    |now| == |before| &&
    forall c, j :: 0 <= c < stride && 0 <= Pos(stride, c, j) < |now| ==>
      LumaPlace(now[Pos(stride, c, j)], before[Pos(stride, c, j)], r, p.x0, p.y0, p.w, p.h, c, j)
  }

  /** Two neighbours at each of two offsets. */
  function AlphaSum(data: seq<Byte>, top: nat, low: nat): int
    requires top + 1 < |data| && low + 1 < |data|
  {
    data[top] as int + data[top + 1] as int + data[low] as int + data[low + 1] as int
  }

  /** Sample (x, y) of the rectangle has been mixed in. */
  ghost predicate ChromaMixed(now: Byte, before: Byte, r: Rect, src: Source, x: int, y: int) {
    var k, top, low := x + y * src.stride, 2 * x + 2 * y * r.alpha.stride, 2 * x + (2 * y + 1) * r.alpha.stride;
    && 0 <= k < |src.data|
    && 0 <= top && top + 1 < |r.alpha.data| && 0 <= low && low + 1 < |r.alpha.data|
    && exists mean: Byte ::
         4 * mean <= AlphaSum(r.alpha.data, top, low) < 4 * (mean + 1) && Mixed(mean, before, src.data[k], now)
  }

  ghost predicate ChromaPlace(now: Byte, before: Byte, r: Rect, src: Source, x0: int, y0: int, w: int, h: int,
                              c: int, j: int)
  {
    if InWindow(x0, y0, w, h, c, j) then ChromaMixed(now, before, r, src, c - x0, j - y0) else now == before
  }

  /** A chroma plane afterwards: the same at half the resolution, with the mean of the four alphas. */
  ghost predicate ChromaPlaces(now: seq<Byte>, before: seq<Byte>, stride: nat, r: Rect, src: Source,
                               imgw: nat, imgh: nat)
  {
    var p := LumaPatch(r, imgw, imgh);
    |now| == |before| &&
    forall c, j :: 0 <= c < stride && 0 <= Pos(stride, c, j) < |now| ==>
      ChromaPlace(now[Pos(stride, c, j)], before[Pos(stride, c, j)], r, src, p.x0 / 2, p.y0 / 2, p.w / 2, p.h / 2, c, j)
  }

  /** Reading the result: blended inside the clipped rectangle, and there between old and new; untouched outside. */
  lemma PlaceByPlace(now: seq<Byte>, before: seq<Byte>, stride: nat, p: Patch, c: int, r: int)
    requires BlendedUpTo(now, before, stride, p, 0, p.h) && 0 <= c < stride && 0 <= Pos(stride, c, r) < |now|
    ensures var k := Pos(stride, c, r);
      if p.x0 <= c < p.x0 + p.w && p.y0 <= r < p.y0 + p.h then
        && now[k] == AlphaBlend(p.alpha(c - p.x0, r - p.y0), before[k], p.colour(c - p.x0, r - p.y0))
        && (before[k] <= now[k] <= p.colour(c - p.x0, r - p.y0) || p.colour(c - p.x0, r - p.y0) <= now[k] <= before[k])
      else now[k] == before[k]
  {
    var k := Pos(stride, c, r);
    assert now[k] == Expected(p, before[k], c, r, 0, p.h);
  }

  lemma LumaResult(now: seq<Byte>, before: seq<Byte>, stride: nat, r: Rect, imgw: nat, imgh: nat)
    requires Complete(r) && BlendedUpTo(now, before, stride, LumaPatch(r, imgw, imgh), 0, LumaPatch(r, imgw, imgh).h)
    ensures LumaPlaces(now, before, stride, r, imgw, imgh)
  {
    var p := LumaPatch(r, imgw, imgh);
    forall c, j | 0 <= c < stride && 0 <= Pos(stride, c, j) < |now|
      ensures LumaPlace(now[Pos(stride, c, j)], before[Pos(stride, c, j)], r, p.x0, p.y0, p.w, p.h, c, j)
    {
      PlaceByPlace(now, before, stride, p, c, j);
      if InWindow(p.x0, p.y0, p.w, p.h, c, j) {
        SourcesInside(r, imgw, imgh, c - p.x0, j - p.y0);
      }
    }
  }

  lemma MeanOfFour(r: Rect, imgw: nat, imgh: nat, x: int, y: int)
    requires Complete(r)
    requires var l := LumaPatch(r, imgw, imgh); 0 <= x < l.w / 2 && 0 <= y < l.h / 2
    ensures var top, low := 2 * x + 2 * y * r.alpha.stride, 2 * x + (2 * y + 1) * r.alpha.stride;
      && 0 <= top && top + 1 < |r.alpha.data| && 0 <= low && low + 1 < |r.alpha.data|
      && 4 * MeanAlpha(r.alpha, x, y) <= AlphaSum(r.alpha.data, top, low) < 4 * (MeanAlpha(r.alpha, x, y) + 1)
  {
    SourcesInside(r, imgw, imgh, x, y);
    SourcesInside(r, imgw, imgh, 2 * x, 2 * y);
    SourcesInside(r, imgw, imgh, 2 * x + 1, 2 * y);
    SourcesInside(r, imgw, imgh, 2 * x, 2 * y + 1);
    SourcesInside(r, imgw, imgh, 2 * x + 1, 2 * y + 1);
  }

  lemma ChromaBlended(now: Byte, before: Byte, r: Rect, src: Source, imgw: nat, imgh: nat, x: int, y: int)
    requires Complete(r) && (src == r.cb || src == r.cr)
    requires var l := LumaPatch(r, imgw, imgh); 0 <= x < l.w / 2 && 0 <= y < l.h / 2
    requires now == AlphaBlend(MeanAlpha(r.alpha, x, y), before, At(src, x, y))
    ensures ChromaMixed(now, before, r, src, x, y)
  {
    hide MeanAlpha, Mixed, AlphaSum, Complete, LumaPatch;
    SourcesInside(r, imgw, imgh, x, y);
    MeanOfFour(r, imgw, imgh, x, y);
    assert Mixed(MeanAlpha(r.alpha, x, y), before, At(src, x, y), now);
  }

  lemma ChromaResult(now: seq<Byte>, before: seq<Byte>, stride: nat, r: Rect, src: Source, imgw: nat, imgh: nat)
    requires Complete(r) && (src == r.cb || src == r.cr)
    requires var p := ChromaPatch(r, src, imgw, imgh); BlendedUpTo(now, before, stride, p, 0, p.h)
    ensures ChromaPlaces(now, before, stride, r, src, imgw, imgh)
  {
    hide MeanAlpha, Complete, ChromaMixed;
    var p := ChromaPatch(r, src, imgw, imgh);
    forall c, j | 0 <= c < stride && 0 <= Pos(stride, c, j) < |now|
      ensures ChromaPlace(now[Pos(stride, c, j)], before[Pos(stride, c, j)], r, src, p.x0, p.y0, p.w, p.h, c, j)
    {
      PlaceByPlace(now, before, stride, p, c, j);
      if InWindow(p.x0, p.y0, p.w, p.h, c, j) {
        ChromaBlended(now[Pos(stride, c, j)], before[Pos(stride, c, j)], r, src, imgw, imgh, c - p.x0, j - p.y0);
      }
    }
  }

  /** blend_subrect: what each plane holds afterwards, place by place. */
  method BlendSubrect(lum: array<Byte>, lumStride: nat, cb: array<Byte>, cbStride: nat, cr: array<Byte>, crStride: nat,
                      r: Rect, imgw: nat, imgh: nat)
    requires lum != cb && lum != cr && cb != cr && Complete(r)
    requires Covers(lum.Length, lumStride, imgw, imgh)
    requires Covers(cb.Length, cbStride, imgw / 2, imgh / 2) && Covers(cr.Length, crStride, imgw / 2, imgh / 2)
    modifies lum, cb, cr
    ensures LumaPlaces(lum[..], old(lum[..]), lumStride, r, imgw, imgh)
    ensures ChromaPlaces(cb[..], old(cb[..]), cbStride, r, r.cb, imgw, imgh)
    ensures ChromaPlaces(cr[..], old(cr[..]), crStride, r, r.cr, imgw, imgh)
  {
    PatchesFit(r, imgw, imgh, lum.Length, lumStride);
    PatchesFit(r, imgw, imgh, cb.Length, cbStride);
    PatchesFit(r, imgw, imgh, cr.Length, crStride);
    BlendLuma(lum, lumStride, LumaPatch(r, imgw, imgh));
    BlendChroma(cb, cbStride, cr, crStride, ChromaPatch(r, r.cb, imgw, imgh), ChromaPatch(r, r.cr, imgw, imgh));
    LumaResult(lum[..], old(lum[..]), lumStride, r, imgw, imgh);
    ChromaResult(cb[..], old(cb[..]), cbStride, r, r.cb, imgw, imgh);
    ChromaResult(cr[..], old(cr[..]), crStride, r, r.cr, imgw, imgh);
  }
}
