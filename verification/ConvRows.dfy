/** One row of a frame: where its lines are, what writing it makes true, and why it leaves the rows
    before it as they were. */
module ConvRows {
  import opened Layout
  import opened Bt601
  import opened Frames
  import opened Pictures
  import opened ConvLines

  /** A framebuffer's contents as a picture. */
  ghost function Shot(fb: Framebuffer): Picture
    requires fb.data != null
    reads fb`params, fb`planes, fb`data, fb.data
  {
    Picture(fb.params, fb.planes, fb.data[..])
  }

  /** The bytes of both frames are where their parameters say, and not the same bytes. */
  ghost predicate Apart(src: Framebuffer, from: PixelFmt, dst: Framebuffer, to: PixelFmt)
    reads src, src.data, dst, dst.data
  {
    src.data != null && dst.data != null && src.data != dst.data && Pair(Shot(src), from, Shot(dst), to)
  }

  /** e differs from d only in line y of plane 0 and, with chroma, in lines y / 2 of planes 1 and 2. */
  ghost predicate OnlyRow(planes: seq<Plane>, d: seq<byte>, e: seq<byte>, y: nat, chroma: bool)
    requires |planes| == MAX_PLANES
  {
    |e| == |d| && forall i: nat | i < |d| && e[i] != d[i] ::
      InLine(planes, 0, y, i) || (chroma && (InLine(planes, 1, y / 2, i) || InLine(planes, 2, y / 2, i)))
  }

  /** The row has these lines. */
  predicate HasRow(planes: seq<Plane>, y: nat, chroma: bool)
    requires |planes| == MAX_PLANES
  {
    && y < planes[0].height
    && (chroma ==> y / 2 < planes[1].height && (planes[2] == NO_PLANE || y / 2 < planes[2].height))
  }

  // --- The planes of each format

  lemma PackedPlanes(f: Picture, y: nat)
    requires Framed(f) && Bpp(f.params.format) != 0 && y < f.params.height
    ensures |f.planes| == MAX_PLANES && AllSound(f.planes) && HasRow(f.planes, y, false)
    ensures f.planes[0].lineSize == f.params.width * Bpp(f.params.format) / 8
    ensures y * f.planes[0].stride == LineStart(f.planes, 0, y)
    ensures LineStart(f.planes, 0, y) + f.planes[0].lineSize <= |f.data|
  {
    PlanesSound(f.params);
    LineInPlane(f.planes, 0, y);
  }

  lemma PlanarPlanes(f: Picture, y: nat)
    requires Framed(f) && f.params.format == YUV420P && Even(f) && y < f.params.height
    ensures |f.planes| == MAX_PLANES && AllSound(f.planes) && HasRow(f.planes, y, true)
    ensures f.planes[0].lineSize == f.params.width && f.planes[1].lineSize == f.planes[2].lineSize == f.params.width / 2
    ensures f.planes[0].height == f.params.height && f.planes[1].height == f.planes[2].height == f.params.height / 2
    ensures y * f.planes[0].stride == LineStart(f.planes, 0, y)
    ensures f.planes[0].size + y / 2 * f.planes[1].stride == LineStart(f.planes, 1, y / 2)
    ensures f.planes[0].size + f.planes[1].size + y / 2 * f.planes[2].stride == LineStart(f.planes, 2, y / 2)
    ensures LineStart(f.planes, 0, y) + f.params.width <= LineStart(f.planes, 1, y / 2)
    ensures LineStart(f.planes, 1, y / 2) + f.params.width / 2 <= LineStart(f.planes, 2, y / 2)
    ensures LineStart(f.planes, 2, y / 2) + f.params.width / 2 <= |f.data|
  {
    PlanesSound(f.params);
    assert y / 2 < f.params.height / 2;
    FirstBases(f.planes);
    LinesOrdered(f.planes, 0, y, 1, y / 2);
    LinesOrdered(f.planes, 1, y / 2, 2, y / 2);
    LineInPlane(f.planes, 2, y / 2);
  }

  lemma InterleavedPlanes(f: Picture, y: nat)
    requires Framed(f) && f.params.format == NV12 && Even(f) && y < f.params.height
    ensures |f.planes| == MAX_PLANES && AllSound(f.planes) && HasRow(f.planes, y, true) && f.planes[2] == NO_PLANE
    ensures f.planes[0].lineSize == f.planes[1].lineSize == f.params.width
    ensures f.planes[0].height == f.params.height && f.planes[1].height == f.params.height / 2
    ensures y * f.planes[0].stride == LineStart(f.planes, 0, y)
    ensures f.planes[0].size + y / 2 * f.planes[1].stride == LineStart(f.planes, 1, y / 2)
    ensures LineStart(f.planes, 0, y) + f.params.width <= LineStart(f.planes, 1, y / 2)
    ensures LineStart(f.planes, 1, y / 2) + f.params.width <= |f.data|
  {
    PlanesSound(f.params);
    assert y / 2 < f.params.height / 2;
    FirstBases(f.planes);
    LinesOrdered(f.planes, 0, y, 1, y / 2);
    LineInPlane(f.planes, 1, y / 2);
  }

  /** Where row y starts in each plane, computed as the converters do. */
  method PackedStart(fb: Framebuffer, y: nat) returns (s0: nat)
    requires fb.data != null && Framed(Shot(fb)) && Bpp(fb.params.format) != 0 && y < fb.params.height
    ensures |fb.planes| == MAX_PLANES && s0 == LineStart(fb.planes, 0, y)
    ensures fb.planes[0].lineSize == fb.params.width * Bpp(fb.params.format) / 8
    ensures s0 + fb.planes[0].lineSize <= fb.data.Length
  {
    PackedPlanes(Shot(fb), y);
    s0 := y * fb.planes[0].stride;
  }

  method PlanarStarts(fb: Framebuffer, y: nat) returns (y0: nat, u0: nat, v0: nat)
    requires fb.data != null && Framed(Shot(fb)) && fb.params.format == YUV420P
    requires Even(Shot(fb)) && y < fb.params.height
    ensures |fb.planes| == MAX_PLANES
    ensures y0 == LineStart(fb.planes, 0, y) && u0 == LineStart(fb.planes, 1, y / 2)
    ensures v0 == LineStart(fb.planes, 2, y / 2)
    ensures fb.planes[0].lineSize == fb.params.width
    ensures fb.planes[1].lineSize == fb.planes[2].lineSize == fb.params.width / 2
    ensures y0 + fb.params.width <= u0 && u0 + fb.params.width / 2 <= v0 && v0 + fb.params.width / 2 <= fb.data.Length
  {
    PlanarPlanes(Shot(fb), y);
    y0 := y * fb.planes[0].stride;
    u0 := fb.planes[0].size + y / 2 * fb.planes[1].stride;
    v0 := fb.planes[0].size + fb.planes[1].size + y / 2 * fb.planes[2].stride;
  }

  method InterleavedStarts(fb: Framebuffer, y: nat) returns (y0: nat, uv0: nat)
    requires fb.data != null && Framed(Shot(fb)) && fb.params.format == NV12 && Even(Shot(fb)) && y < fb.params.height
    ensures |fb.planes| == MAX_PLANES
    ensures y0 == LineStart(fb.planes, 0, y) && uv0 == LineStart(fb.planes, 1, y / 2)
    ensures fb.planes[0].lineSize == fb.planes[1].lineSize == fb.params.width
    ensures y0 + fb.params.width <= uv0 && uv0 + fb.params.width <= fb.data.Length
  {
    InterleavedPlanes(Shot(fb), y);
    y0 := y * fb.planes[0].stride;
    uv0 := fb.planes[0].size + y / 2 * fb.planes[1].stride;
  }

  lemma FirstBases(planes: seq<Plane>)
    requires |planes| == MAX_PLANES
    ensures Base(planes, 0) == 0 && Base(planes, 1) == planes[0].size
    ensures Base(planes, 2) == planes[0].size + planes[1].size
  {
    assert Base(planes, 1) == Base(planes, 0) + planes[0].size;
    assert Base(planes, 2) == Base(planes, 1) + planes[1].size;
  }

  // --- Writing a row leaves the others

  lemma LineKept(planes: seq<Plane>, d: seq<byte>, e: seq<byte>, y: nat, chroma: bool, k: nat, x: nat, j: nat)
    requires |planes| == MAX_PLANES && AllSound(planes) && |d| == TotalSize(planes)
    requires OnlyRow(planes, d, e, y, chroma) && HasRow(planes, y, chroma)
    requires k < |planes| && j < planes[k].height && x < planes[k].lineSize
    requires if k == 0 then j != y else k <= 2 && (chroma ==> j != y / 2)
    ensures Pix(planes, e, k, x, j) == Pix(planes, d, k, x, j)
  {
    var i := LineStart(planes, k, j) + x;
    LineInPlane(planes, k, j);
    LinesDisjoint(planes, 0, y, k, j, i);
    if chroma {
      LinesDisjoint(planes, 1, y / 2, k, j, i);
      if planes[2] != NO_PLANE {
        LinesDisjoint(planes, 2, y / 2, k, j, i);
      }
    }
  }

  /** Spans inside the lines of a row. */
  lemma SpansOfRow(planes: seq<Plane>, d: seq<byte>, e: seq<byte>, y: nat, chroma: bool,
                   y0: nat, l: nat, u0: nat, m: nat, v0: nat, n: nat)
    requires |planes| == MAX_PLANES && OnlyThere(d, e, y0, l, u0, m, v0, n)
    requires y0 == LineStart(planes, 0, y) && l <= planes[0].lineSize
    requires m > 0 ==> chroma && u0 == LineStart(planes, 1, y / 2) && m <= planes[1].lineSize
    requires n > 0 ==> chroma && v0 == LineStart(planes, 2, y / 2) && n <= planes[2].lineSize
    ensures OnlyRow(planes, d, e, y, chroma)
  {
  }

  /** Padding is no part of any row. */
  lemma PaddingOfRow(planes: seq<Plane>, d: seq<byte>, e: seq<byte>, y: nat, chroma: bool)
    requires |planes| == MAX_PLANES && AllSound(planes) && OnlyRow(planes, d, e, y, chroma) && HasRow(planes, y, chroma)
    ensures SamePadding(planes, d, e)
  {
  }

  /** Bytes outside every line are the same. */
  ghost predicate SamePadding(planes: seq<Plane>, d: seq<byte>, e: seq<byte>) {
    |e| == |d| && forall i: nat | i < |d| && e[i] != d[i] ::
      exists k: nat, j: nat :: k < |planes| && j < planes[k].height && InLine(planes, k, j, i)
  }

  lemma PaddingChain(planes: seq<Plane>, c: seq<byte>, d: seq<byte>, e: seq<byte>)
    requires SamePadding(planes, c, d) && SamePadding(planes, d, e)
    ensures SamePadding(planes, c, e)
  {
  }

  /** The luma and chroma rows encoded after the first y lines of the source. */
  ghost predicate EncodedTo(f: Picture, g: Picture, y: nat, bgr: bool)
    requires |f.planes| == |g.planes| == MAX_PLANES
  {
    && (forall j: nat | j < y :: LumaRow(f, g, j, bgr))
    && (forall j: nat | 2 * j < y ::
          if g.params.format == NV12 then InterleavedChromaRow(f, g, j) else PlanarChromaRow(f, g, j, bgr))
  }

  /** What one more row makes true. */
  ghost predicate RowEncoded(f: Picture, g: Picture, y: nat, bgr: bool)
    requires |f.planes| == |g.planes| == MAX_PLANES
  {
    && LumaRow(f, g, y, bgr)
    && (y % 2 == 0 ==>
          if g.params.format == NV12 then InterleavedChromaRow(f, g, y / 2) else PlanarChromaRow(f, g, y / 2, bgr))
  }

  lemma LumaRowKept(f: Picture, g: Picture, h: Picture, y: nat, j: nat, bgr: bool)
    requires Pair(f, f.params.format, g, YUV420P) || Pair(f, f.params.format, g, NV12)
    requires Even(f) && y < f.params.height && j < y && h == g.(data := h.data)
    requires OnlyRow(g.planes, g.data, h.data, y, y % 2 == 0) && LumaRow(f, g, j, bgr)
    ensures LumaRow(f, h, j, bgr)
  {
    RowThere(g, y);
    forall x: nat | x < f.params.width ensures Pix(h.planes, h.data, 0, x, j) == Pix(g.planes, g.data, 0, x, j) {
      LineKept(g.planes, g.data, h.data, y, y % 2 == 0, 0, x, j);
    }
  }

  lemma RowThere(g: Picture, y: nat)
    requires Framed(g) && Even(g) && y < g.params.height && g.params.format in {YUV420P, NV12}
    ensures |g.planes| == MAX_PLANES && AllSound(g.planes) && HasRow(g.planes, y, true)
    ensures g.planes[0].lineSize == g.params.width && g.planes[0].height == g.params.height
    ensures g.params.height / 2 == g.planes[1].height
  {
    if g.params.format == YUV420P {
      PlanarPlanes(g, y);
    } else {
      InterleavedPlanes(g, y);
    }
  }

  lemma PlanarChromaKept(f: Picture, g: Picture, h: Picture, y: nat, j: nat, bgr: bool)
    requires Pair(f, f.params.format, g, YUV420P)
    requires Even(f) && y < f.params.height && 2 * j < y && h == g.(data := h.data)
    requires OnlyRow(g.planes, g.data, h.data, y, y % 2 == 0) && PlanarChromaRow(f, g, j, bgr)
    ensures PlanarChromaRow(f, h, j, bgr)
  {
    PlanarPlanes(g, y);
    assert y % 2 == 0 ==> j != y / 2;
    assert j < f.params.height / 2;
    forall x: nat | x < f.params.width / 2
      ensures Pix(h.planes, h.data, 1, x, j) == Pix(g.planes, g.data, 1, x, j)
      ensures Pix(h.planes, h.data, 2, x, j) == Pix(g.planes, g.data, 2, x, j)
    {
      LineKept(g.planes, g.data, h.data, y, y % 2 == 0, 1, x, j);
      LineKept(g.planes, g.data, h.data, y, y % 2 == 0, 2, x, j);
    }
  }

  lemma InterleavedChromaKept(f: Picture, g: Picture, h: Picture, y: nat, j: nat)
    requires Pair(f, f.params.format, g, NV12)
    requires Even(f) && y < f.params.height && 2 * j < y && h == g.(data := h.data)
    requires OnlyRow(g.planes, g.data, h.data, y, y % 2 == 0) && InterleavedChromaRow(f, g, j)
    ensures InterleavedChromaRow(f, h, j)
  {
    InterleavedPlanes(g, y);
    assert y % 2 == 0 ==> j != y / 2;
    assert j < f.params.height / 2;
    forall x: nat | x < f.params.width / 2
      ensures Pix(h.planes, h.data, 1, 2 * x, j) == Pix(g.planes, g.data, 1, 2 * x, j)
      ensures Pix(h.planes, h.data, 1, 2 * x + 1, j) == Pix(g.planes, g.data, 1, 2 * x + 1, j)
    {
      LineKept(g.planes, g.data, h.data, y, y % 2 == 0, 1, 2 * x, j);
      LineKept(g.planes, g.data, h.data, y, y % 2 == 0, 1, 2 * x + 1, j);
    }
  }

  /** Encoding a row keeps all rows before it. */
  lemma EncodedFurther(f: Picture, g: Picture, h: Picture, y: nat, bgr: bool)
    requires Pair(f, f.params.format, g, YUV420P) || (Pair(f, f.params.format, g, NV12) && !bgr)
    requires Even(f) && y < f.params.height && h == g.(data := h.data)
    requires OnlyRow(g.planes, g.data, h.data, y, y % 2 == 0)
    requires EncodedTo(f, g, y, bgr) && RowEncoded(f, h, y, bgr)
    ensures EncodedTo(f, h, y + 1, bgr)
  {
    forall j: nat | j < y ensures LumaRow(f, h, j, bgr) {
      LumaRowKept(f, g, h, y, j, bgr);
    }
    forall j: nat | 2 * j < y + 1
      ensures if g.params.format == NV12 then InterleavedChromaRow(f, h, j) else PlanarChromaRow(f, h, j, bgr)
    {
      if 2 * j == y {
        assert j == y / 2 && y % 2 == 0;
      } else if g.params.format == NV12 {
        InterleavedChromaKept(f, g, h, y, j);
      } else {
        PlanarChromaKept(f, g, h, y, j, bgr);
      }
    }
  }

  lemma RgbRowKept(g: Picture, h: Picture, y: nat, j: nat, x: nat)
    requires Framed(g) && g.params.format == RGB888 && |g.planes| == MAX_PLANES && h == g.(data := h.data)
    requires y < g.params.height && j < y && x < g.params.width && OnlyRow(g.planes, g.data, h.data, y, false)
    ensures RgbAt(h.planes, h.data, x, j) == RgbAt(g.planes, g.data, x, j)
  {
    PackedPlanes(g, y);
    LineKept(g.planes, g.data, h.data, y, false, 0, 3 * x, j);
    LineKept(g.planes, g.data, h.data, y, false, 0, 3 * x + 1, j);
    LineKept(g.planes, g.data, h.data, y, false, 0, 3 * x + 2, j);
  }

  // --- From the bytes of a line to a row of a picture

  lemma LumaRowWritten(f: Picture, g: Picture, y: nat, bgr: bool)
    requires |f.planes| == |g.planes| == MAX_PLANES
    requires Line(g.data, LineStart(g.planes, 0, y), f.params.width, Lumas(f.data, LineStart(f.planes, 0, y), bgr))
    ensures LumaRow(f, g, y, bgr)
  {
    forall x: nat | x < f.params.width
      ensures Pix(g.planes, g.data, 0, x, y) == ToY(ColorAt(f.planes, f.data, x, y, bgr))
    {
      assert Pix(g.planes, g.data, 0, x, y) == ByteAt(g.data, LineStart(g.planes, 0, y), x);
    }
  }

  lemma PlanarChromaWritten(f: Picture, g: Picture, c: nat, bgr: bool)
    requires |f.planes| == |g.planes| == MAX_PLANES
    requires Line(g.data, LineStart(g.planes, 1, c), f.params.width / 2, Us(f.data, LineStart(f.planes, 0, 2 * c), bgr))
    requires Line(g.data, LineStart(g.planes, 2, c), f.params.width / 2, Vs(f.data, LineStart(f.planes, 0, 2 * c), bgr))
    ensures PlanarChromaRow(f, g, c, bgr)
  {
    forall x: nat | x < f.params.width / 2
      ensures Pix(g.planes, g.data, 1, x, c) == ToU(ColorAt(f.planes, f.data, 2 * x, 2 * c, bgr))
      ensures Pix(g.planes, g.data, 2, x, c) == ToV(ColorAt(f.planes, f.data, 2 * x, 2 * c, bgr))
    {
      assert Pix(g.planes, g.data, 1, x, c) == ByteAt(g.data, LineStart(g.planes, 1, c), x);
      assert Pix(g.planes, g.data, 2, x, c) == ByteAt(g.data, LineStart(g.planes, 2, c), x);
    }
  }

  lemma ChromaPairWritten(d: seq<byte>, uv0: nat, n: nat, s: seq<byte>, s0: nat, x: nat)
    requires Line(d, uv0, n, UVs(s, s0)) && 2 * x + 1 < n
    ensures ByteAt(d, uv0, 2 * x) == ToU(ColorFrom(s, s0 + 3 * (2 * x), false))
    ensures ByteAt(d, uv0, 2 * x + 1) == ToV(ColorFrom(s, s0 + 3 * (2 * x), false))
  {
    hide ToU, ToV, ColorFrom, UVs, ByteAt;
    PairFromOnePixel(s, s0, 2 * x);
  }

  /** The bytes of a chroma pair and the pixel they come from, as a picture's. */
  lemma PairOfRow(f: Picture, g: Picture, c: nat, x: nat, uv0: nat, s0: nat)
    requires |f.planes| == |g.planes| == MAX_PLANES
    requires uv0 == LineStart(g.planes, 1, c) && s0 == LineStart(f.planes, 0, 2 * c)
    ensures Pix(g.planes, g.data, 1, 2 * x, c) == ByteAt(g.data, uv0, 2 * x)
    ensures Pix(g.planes, g.data, 1, 2 * x + 1, c) == ByteAt(g.data, uv0, 2 * x + 1)
    ensures RgbAt(f.planes, f.data, 2 * x, 2 * c) == ColorFrom(f.data, s0 + 3 * (2 * x), false)
  {
  }

  lemma InterleavedChromaWritten(f: Picture, g: Picture, c: nat)
    requires |f.planes| == |g.planes| == MAX_PLANES && f.params.width % 2 == 0
    requires Line(g.data, LineStart(g.planes, 1, c), f.params.width, UVs(f.data, LineStart(f.planes, 0, 2 * c)))
    ensures InterleavedChromaRow(f, g, c)
  {
    hide Line, Pix, RgbAt, ColorFrom, ToU, ToV, UVs, ByteAt, LineStart;
    forall x: nat | x < f.params.width / 2
      ensures Pix(g.planes, g.data, 1, 2 * x, c) == ToU(RgbAt(f.planes, f.data, 2 * x, 2 * c))
      ensures Pix(g.planes, g.data, 1, 2 * x + 1, c) == ToV(RgbAt(f.planes, f.data, 2 * x, 2 * c))
    {
      var uv0, s0 := LineStart(g.planes, 1, c), LineStart(f.planes, 0, 2 * c);
      ChromaPairWritten(g.data, uv0, f.params.width, f.data, s0, x);
      PairOfRow(f, g, c, x, uv0, s0);
    }
  }

  lemma BytesOfPixel(colors: nat -> Rgb, x: nat)
    ensures var want := Bytes(colors);
            Rgb(want(3 * x), want(3 * x + 1), want(3 * x + 2)) == colors(x)
  {
    assert (3 * x) / 3 == x && (3 * x + 1) / 3 == x && (3 * x + 2) / 3 == x;
  }

  /** A line of pixels is where the picture says. */
  lemma ColorsWritten(g: Picture, y: nat, width: nat, colors: nat -> Rgb, x: nat)
    requires |g.planes| == MAX_PLANES && x < width
    requires Line(g.data, LineStart(g.planes, 0, y), 3 * width, Bytes(colors))
    ensures RgbAt(g.planes, g.data, x, y) == colors(x)
  {
    var d0 := LineStart(g.planes, 0, y);
    BytesOfPixel(colors, x);
    assert RgbAt(g.planes, g.data, x, y)
        == Rgb(ByteAt(g.data, d0, 3 * x), ByteAt(g.data, d0, 3 * x + 1), ByteAt(g.data, d0, 3 * x + 2));
  }
}
