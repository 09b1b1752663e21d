/** The pixel format converters, the table that finds them and the conversion context. */
module Conversion {
  import opened Options
  import opened Layout
  import opened Bt601
  import opened Frames
  import opened Pictures
  import opened ConvLines
  import opened ConvRows

  // --- What callers hand in

  /** A frame with data is laid out as its parameters say. */
  ghost predicate Laid(fb: Framebuffer?)
    reads fb
  {
    fb != null && fb.data != null ==> PlanesOf(fb.params) == Some(fb.planes) && fb.data.Length == TotalSize(fb.planes)
  }

  /** Chroma shared between pixels needs even sizes. */
  predicate SharesChroma(format: PixelFmt) {
    format in {YUV420P, NV12, YUYV}
  }

  /** The demands of a converter on its caller. A null frame or a frame without data is not among
      them: it reports those. */
  ghost predicate Usable(src: Framebuffer?, from: PixelFmt, dst: Framebuffer?, to: PixelFmt)
    reads src, dst
  {
    && Laid(src) && Laid(dst)
    && (src != null ==> src.params.format == from)
    && (dst != null ==> dst.params.format == to)
    && (src != null && dst != null && src.data != null ==> src.data != dst.data)
    && (src != null && (SharesChroma(from) || (SharesChroma(to) && from != RAW8)) ==>
          src.params.width % 2 == 0 && src.params.height % 2 == 0)
  }

  ghost predicate Matching(src: Framebuffer?, dst: Framebuffer?)
    reads src, dst
  {
    && src != null && dst != null && src.data != null && dst.data != null
    && src.params.width == dst.params.width && src.params.height == dst.params.height
  }

  ghost function Written(dst: Framebuffer?): set<object>
    reads dst
  {
    if dst == null || dst.data == null then {} else {dst.data}
  }

  /** g holds what f converts to; the formats of the two leave one of these. */
  ghost predicate ConversionOf(f: Picture, g: Picture) {
    || PlanarOf(f, g, false) || PlanarOf(f, g, true) || InterleavedOf(f, g)
    || DecodedOf(f, g) || GrayRgbOf(f, g) || GrayPlanarOf(f, g)
  }

  /** Refused exactly for frames that are missing or differ in size, and then nothing is written;
      otherwise dst is the conversion of src. */
  twostate predicate Outcome(src: Framebuffer?, dst: Framebuffer?, err: VfErr)
    reads src, dst, if src == null then {} else {src.data}, Written(dst)
  {
    && err == (if Matching(src, dst) then SUCCESS else CONV_PROCESSING_ERR)
    && (err == SUCCESS ==> ConversionOf(Shot(src), Shot(dst)))
    && (err != SUCCESS && dst != null && dst.data != null && dst.data == old(dst.data) ==>
          dst.data[..] == old(dst.data[..]))
  }

  method ValidateFramebuffers(src: Framebuffer?, dst: Framebuffer?) returns (ok: bool)
    ensures ok <==> Matching(src, dst)
  {
    if src == null || dst == null {
      return false;
    }
    if src.data == null || dst.data == null {
      return false;
    }
    ok := src.params.width == dst.params.width && src.params.height == dst.params.height;
  }

  // --- RGB888 or BGR888 to YUV420P

  method PlanarRow(src: Framebuffer, dst: Framebuffer, y: nat, bgr: bool)
    requires Apart(src, if bgr then BGR888 else RGB888, dst, YUV420P) && Even(Shot(src)) && y < src.params.height
    modifies dst.data
    ensures RowEncoded(Shot(src), Shot(dst), y, bgr)
    ensures OnlyRow(dst.planes, old(dst.data[..]), dst.data[..], y, y % 2 == 0)
  {
    hide Line, Lumas, Us, Vs, OnlyThere, OnlyRow, RowEncoded;
    hide Layout.PlanesOf, Layout.TotalSize, Layout.LineStart;
    ghost var f, d := Shot(src), dst.data[..];
    var s0 := PackedStart(src, y);
    var y0, u0, v0 := PlanarStarts(dst, y);
    EncodePlanar(src.data, s0, dst.data, y0, u0, v0, src.params.width, y % 2 == 0, bgr);
    ghost var n := if y % 2 == 0 then src.params.width / 2 else 0;
    SpansOfRow(dst.planes, d, dst.data[..], y, y % 2 == 0, y0, src.params.width, u0, n, v0, n);
    PlanarRowWritten(f, Shot(dst), y, bgr, s0, y0, u0, v0);
  }

  lemma PlanarRowWritten(f: Picture, g: Picture, y: nat, bgr: bool, s0: nat, y0: nat, u0: nat, v0: nat)
    requires |f.planes| == |g.planes| == MAX_PLANES && g.params.format != NV12
    requires s0 == LineStart(f.planes, 0, y) && y0 == LineStart(g.planes, 0, y)
    requires u0 == LineStart(g.planes, 1, y / 2) && v0 == LineStart(g.planes, 2, y / 2)
    requires Line(g.data, y0, f.params.width, Lumas(f.data, s0, bgr))
    requires y % 2 == 0 ==> Line(g.data, u0, f.params.width / 2, Us(f.data, s0, bgr))
    requires y % 2 == 0 ==> Line(g.data, v0, f.params.width / 2, Vs(f.data, s0, bgr))
    ensures RowEncoded(f, g, y, bgr)
  {
    LumaRowWritten(f, g, y, bgr);
    if y % 2 == 0 {
      assert 2 * (y / 2) == y;
      PlanarChromaWritten(f, g, y / 2, bgr);
    }
  }

  /** convert_rgb888_to_yuv420p, and with bgr convert_bgr888_to_yuv420p. */
  method RgbToPlanar(src: Framebuffer?, dst: Framebuffer?, bgr: bool) returns (err: VfErr)
    requires Usable(src, if bgr then BGR888 else RGB888, dst, YUV420P)
    modifies Written(dst)
    ensures Outcome(src, dst, err)
    ensures err == SUCCESS ==> SamePadding(dst.planes, old(dst.data[..]), dst.data[..])
  {
    var ok := ValidateFramebuffers(src, dst);
    if !ok {
      return CONV_PROCESSING_ERR;
    }
    PlanesSound(src.params);
    PlanesSound(dst.params);
    ghost var f := Shot(src);
    var y := 0;
    while y < src.params.height
      invariant 0 <= y <= src.params.height
      invariant EncodedTo(f, Shot(dst), y, bgr)
      invariant SamePadding(dst.planes, old(dst.data[..]), dst.data[..])
    {
      ghost var g := Shot(dst);
      PlanarRow(src, dst, y, bgr);
      EncodedFurther(f, g, Shot(dst), y, bgr);
      PlanarPlanes(g, y);
      PaddingOfRow(dst.planes, g.data, dst.data[..], y, y % 2 == 0);
      PaddingChain(dst.planes, old(dst.data[..]), g.data, dst.data[..]);
      y := y + 1;
    }
    err := SUCCESS;
  }

  // --- RGB888 to NV12

  method InterleavedRow(src: Framebuffer, dst: Framebuffer, y: nat)
    requires Apart(src, RGB888, dst, NV12) && Even(Shot(src)) && y < src.params.height
    modifies dst.data
    ensures RowEncoded(Shot(src), Shot(dst), y, false)
    ensures OnlyRow(dst.planes, old(dst.data[..]), dst.data[..], y, y % 2 == 0)
  {
    hide Line, Lumas, UVs, OnlyThere, OnlyRow, RowEncoded;
    ghost var f, d := Shot(src), dst.data[..];
    var s0 := PackedStart(src, y);
    var y0, uv0 := InterleavedStarts(dst, y);
    EncodeInterleaved(src.data, s0, dst.data, y0, uv0, src.params.width, y % 2 == 0);
    ghost var n := if y % 2 == 0 then src.params.width else 0;
    SpansOfRow(dst.planes, d, dst.data[..], y, y % 2 == 0, y0, src.params.width, uv0, n, 0, 0);
    InterleavedRowWritten(f, Shot(dst), y, s0, y0, uv0);
  }

  lemma InterleavedRowWritten(f: Picture, g: Picture, y: nat, s0: nat, y0: nat, uv0: nat)
    requires |f.planes| == |g.planes| == MAX_PLANES && g.params.format == NV12 && f.params.width % 2 == 0
    requires s0 == LineStart(f.planes, 0, y) && y0 == LineStart(g.planes, 0, y) && uv0 == LineStart(g.planes, 1, y / 2)
    requires Line(g.data, y0, f.params.width, Lumas(f.data, s0, false))
    requires y % 2 == 0 ==> Line(g.data, uv0, f.params.width, UVs(f.data, s0))
    ensures RowEncoded(f, g, y, false)
  {
    LumaRowWritten(f, g, y, false);
    if y % 2 == 0 {
      assert 2 * (y / 2) == y;
      InterleavedChromaWritten(f, g, y / 2);
    }
  }

  method RgbToInterleaved(src: Framebuffer?, dst: Framebuffer?) returns (err: VfErr)
    requires Usable(src, RGB888, dst, NV12)
    modifies Written(dst)
    ensures Outcome(src, dst, err)
    ensures err == SUCCESS ==> SamePadding(dst.planes, old(dst.data[..]), dst.data[..])
  {
    var ok := ValidateFramebuffers(src, dst);
    if !ok {
      return CONV_PROCESSING_ERR;
    }
    PlanesSound(src.params);
    PlanesSound(dst.params);
    ghost var f := Shot(src);
    var y := 0;
    while y < src.params.height
      invariant 0 <= y <= src.params.height
      invariant EncodedTo(f, Shot(dst), y, false)
      invariant SamePadding(dst.planes, old(dst.data[..]), dst.data[..])
    {
      ghost var g := Shot(dst);
      InterleavedRow(src, dst, y);
      EncodedFurther(f, g, Shot(dst), y, false);
      InterleavedPlanes(g, y);
      PaddingOfRow(dst.planes, g.data, dst.data[..], y, y % 2 == 0);
      PaddingChain(dst.planes, old(dst.data[..]), g.data, dst.data[..]);
      y := y + 1;
    }
    err := SUCCESS;
  }

  // --- To RGB888

  method DecodedPlanarRow(src: Framebuffer, dst: Framebuffer, y: nat)
    requires Apart(src, YUV420P, dst, RGB888) && Even(Shot(src)) && y < src.params.height
    modifies dst.data
    ensures DecodedRow(Shot(src), Shot(dst), y)
    ensures OnlyRow(dst.planes, old(dst.data[..]), dst.data[..], y, false)
  {
    hide Line, Bytes, PlanarColors, OnlyThere, OnlyRow, DecodedRow;
    hide Layout.PlanesOf, Layout.TotalSize, Layout.LineStart;
    ghost var f, d := Shot(src), dst.data[..];
    var width := src.params.width;
    var y0, u0, v0 := PlanarStarts(src, y);
    var d0 := PackedStart(dst, y);
    DecodePlanar(src.data, y0, u0, v0, dst.data, d0, width);
    SpansOfRow(dst.planes, d, dst.data[..], y, false, d0, 3 * width, 0, 0, 0, 0);
    DecodedPlanarRowWritten(f, Shot(dst), y, y0, u0, v0, d0);
  }

  lemma DecodedPlanarRowWritten(f: Picture, g: Picture, y: nat, y0: nat, u0: nat, v0: nat, d0: nat)
    requires |f.planes| == |g.planes| == MAX_PLANES && d0 == LineStart(g.planes, 0, y)
    requires f.params.format == YUV420P
    requires y0 == LineStart(f.planes, 0, y) && u0 == LineStart(f.planes, 1, y / 2)
    requires v0 == LineStart(f.planes, 2, y / 2)
    requires Line(g.data, d0, 3 * f.params.width, Bytes(PlanarColors(f.data, y0, u0, v0)))
    ensures DecodedRow(f, g, y)
  {
    hide Line, Bytes, RgbAt, Decode;
    var colors := PlanarColors(f.data, y0, u0, v0);
    forall x: nat | x < f.params.width
      ensures RgbAt(g.planes, g.data, x, y) == var (l, u, v) := Yuv(f, x, y); Decode(l, u, v)
    {
      ColorsWritten(g, y, f.params.width, colors, x);
    }
  }

  method DecodedInterleavedRow(src: Framebuffer, dst: Framebuffer, y: nat)
    requires Apart(src, NV12, dst, RGB888) && Even(Shot(src)) && y < src.params.height
    modifies dst.data
    ensures DecodedRow(Shot(src), Shot(dst), y)
    ensures OnlyRow(dst.planes, old(dst.data[..]), dst.data[..], y, false)
  {
    hide Line, Bytes, InterleavedColors, OnlyThere, OnlyRow, DecodedRow;
    hide Layout.PlanesOf, Layout.TotalSize, Layout.LineStart;
    ghost var f, d := Shot(src), dst.data[..];
    var width := src.params.width;
    var y0, uv0 := InterleavedStarts(src, y);
    var d0 := PackedStart(dst, y);
    DecodeInterleaved(src.data, y0, uv0, dst.data, d0, width);
    SpansOfRow(dst.planes, d, dst.data[..], y, false, d0, 3 * width, 0, 0, 0, 0);
    DecodedInterleavedRowWritten(f, Shot(dst), y, y0, uv0, d0);
  }

  lemma DecodedInterleavedRowWritten(f: Picture, g: Picture, y: nat, y0: nat, uv0: nat, d0: nat)
    requires |f.planes| == |g.planes| == MAX_PLANES && d0 == LineStart(g.planes, 0, y)
    requires f.params.format == NV12 && y0 == LineStart(f.planes, 0, y) && uv0 == LineStart(f.planes, 1, y / 2)
    requires Line(g.data, d0, 3 * f.params.width, Bytes(InterleavedColors(f.data, y0, uv0)))
    ensures DecodedRow(f, g, y)
  {
    hide Line, Bytes, RgbAt, Decode;
    var colors := InterleavedColors(f.data, y0, uv0);
    forall x: nat | x < f.params.width
      ensures RgbAt(g.planes, g.data, x, y) == var (l, u, v) := Yuv(f, x, y); Decode(l, u, v)
    {
      ColorsWritten(g, y, f.params.width, colors, x);
    }
  }

  method DecodedPackedRow(src: Framebuffer, dst: Framebuffer, y: nat)
    requires Apart(src, YUYV, dst, RGB888) && Even(Shot(src)) && y < src.params.height
    modifies dst.data
    ensures DecodedRow(Shot(src), Shot(dst), y)
    ensures OnlyRow(dst.planes, old(dst.data[..]), dst.data[..], y, false)
  {
    hide Line, Bytes, PackedColors, OnlyThere, OnlyRow, DecodedRow;
    hide Layout.PlanesOf, Layout.TotalSize, Layout.LineStart;
    ghost var f, d := Shot(src), dst.data[..];
    var width := src.params.width;
    var s0 := PackedStart(src, y);
    var d0 := PackedStart(dst, y);
    DecodePacked(src.data, s0, dst.data, d0, width);
    SpansOfRow(dst.planes, d, dst.data[..], y, false, d0, 3 * width, 0, 0, 0, 0);
    DecodedPackedRowWritten(f, Shot(dst), y, s0, d0);
  }

  lemma DecodedPackedRowWritten(f: Picture, g: Picture, y: nat, s0: nat, d0: nat)
    requires |f.planes| == |g.planes| == MAX_PLANES && d0 == LineStart(g.planes, 0, y)
    requires f.params.format == YUYV && s0 == LineStart(f.planes, 0, y)
    requires Line(g.data, d0, 3 * f.params.width, Bytes(PackedColors(f.data, s0)))
    ensures DecodedRow(f, g, y)
  {
    hide Line, Bytes, RgbAt, Decode;
    var colors := PackedColors(f.data, s0);
    forall x: nat | x < f.params.width
      ensures RgbAt(g.planes, g.data, x, y) == var (l, u, v) := Yuv(f, x, y); Decode(l, u, v)
    {
      ColorsWritten(g, y, f.params.width, colors, x);
    }
  }

  ghost predicate DecodedTo(f: Picture, g: Picture, y: nat)
    requires |f.planes| == |g.planes| == MAX_PLANES
  {
    forall j: nat | j < y :: DecodedRow(f, g, j)
  }

  lemma DecodedFurther(f: Picture, g: Picture, h: Picture, y: nat)
    requires Pair(f, f.params.format, g, RGB888) && h == g.(data := h.data) && y < f.params.height
    requires OnlyRow(g.planes, g.data, h.data, y, false) && DecodedTo(f, g, y) && DecodedRow(f, h, y)
    ensures DecodedTo(f, h, y + 1)
  {
    forall j: nat | j < y ensures DecodedRow(f, h, j) {
      assert DecodedRow(f, g, j);
      forall x: nat | x < f.params.width ensures RgbAt(h.planes, h.data, x, j) == RgbAt(g.planes, g.data, x, j) {
        RgbRowKept(g, h, y, j, x);
      }
    }
  }

  /** convert_yuv420p_to_rgb888, convert_nv12_to_rgb888 and convert_yuyv_to_rgb888: the same walk, with
      rows of the source format. */
  method ToRgb(src: Framebuffer?, dst: Framebuffer?, from: PixelFmt) returns (err: VfErr)
    requires from in {YUV420P, NV12, YUYV} && Usable(src, from, dst, RGB888)
    modifies Written(dst)
    ensures Outcome(src, dst, err)
    ensures err == SUCCESS ==> SamePadding(dst.planes, old(dst.data[..]), dst.data[..])
  {
    var ok := ValidateFramebuffers(src, dst);
    if !ok {
      return CONV_PROCESSING_ERR;
    }
    PlanesSound(src.params);
    PlanesSound(dst.params);
    ghost var f := Shot(src);
    var y := 0;
    while y < src.params.height
      invariant 0 <= y <= src.params.height
      invariant DecodedTo(f, Shot(dst), y)
      invariant SamePadding(dst.planes, old(dst.data[..]), dst.data[..])
    {
      ghost var g := Shot(dst);
      if from == YUV420P {
        DecodedPlanarRow(src, dst, y);
      } else if from == NV12 {
        DecodedInterleavedRow(src, dst, y);
      } else {
        DecodedPackedRow(src, dst, y);
      }
      DecodedFurther(f, g, Shot(dst), y);
      PackedPlanes(g, y);
      PaddingOfRow(dst.planes, g.data, dst.data[..], y, false);
      PaddingChain(dst.planes, old(dst.data[..]), g.data, dst.data[..]);
      y := y + 1;
    }
    err := SUCCESS;
  }

  // --- Gray sensor frames

  method GrayRgbRow(src: Framebuffer, dst: Framebuffer, y: nat)
    requires Apart(src, RAW8, dst, RGB888) && y < src.params.height
    modifies dst.data
    ensures GrayRow(Shot(src), Shot(dst), y)
    ensures OnlyRow(dst.planes, old(dst.data[..]), dst.data[..], y, false)
  {
    hide Line, Bytes, Grays, OnlyThere, OnlyRow, GrayRow;
    hide Layout.PlanesOf, Layout.TotalSize, Layout.LineStart;
    ghost var f, d := Shot(src), dst.data[..];
    var width := src.params.width;
    var s0 := PackedStart(src, y);
    var d0 := PackedStart(dst, y);
    Spread(src.data, s0, dst.data, d0, width);
    SpansOfRow(dst.planes, d, dst.data[..], y, false, d0, 3 * width, 0, 0, 0, 0);
    GrayRowWritten(f, Shot(dst), y, s0, d0);
  }

  lemma GrayRowWritten(f: Picture, g: Picture, y: nat, s0: nat, d0: nat)
    requires |f.planes| == |g.planes| == MAX_PLANES
    requires s0 == LineStart(f.planes, 0, y) && d0 == LineStart(g.planes, 0, y)
    requires Line(g.data, d0, 3 * f.params.width, Bytes(Grays(f.data, s0)))
    ensures GrayRow(f, g, y)
  {
    hide Line, Bytes, RgbAt;
    forall x: nat | x < f.params.width
      ensures RgbAt(g.planes, g.data, x, y) == Grays(f.data, s0)(x)
    {
      ColorsWritten(g, y, f.params.width, Grays(f.data, s0), x);
    }
  }

  ghost predicate GrayTo(f: Picture, g: Picture, y: nat)
    requires |f.planes| == |g.planes| == MAX_PLANES
  {
    forall j: nat | j < y :: GrayRow(f, g, j)
  }

  lemma GrayFurther(f: Picture, g: Picture, h: Picture, y: nat)
    requires Pair(f, RAW8, g, RGB888) && h == g.(data := h.data) && y < f.params.height
    requires OnlyRow(g.planes, g.data, h.data, y, false) && GrayTo(f, g, y) && GrayRow(f, h, y)
    ensures GrayTo(f, h, y + 1)
  {
    forall j: nat | j < y ensures GrayRow(f, h, j) {
      assert GrayRow(f, g, j);
      forall x: nat | x < f.params.width ensures RgbAt(h.planes, h.data, x, j) == RgbAt(g.planes, g.data, x, j) {
        RgbRowKept(g, h, y, j, x);
      }
    }
  }

  method GrayToRgb(src: Framebuffer?, dst: Framebuffer?) returns (err: VfErr)
    requires Usable(src, RAW8, dst, RGB888)
    modifies Written(dst)
    ensures Outcome(src, dst, err)
    ensures err == SUCCESS ==> SamePadding(dst.planes, old(dst.data[..]), dst.data[..])
  {
    var ok := ValidateFramebuffers(src, dst);
    if !ok {
      return CONV_PROCESSING_ERR;
    }
    PlanesSound(src.params);
    PlanesSound(dst.params);
    ghost var f := Shot(src);
    var y := 0;
    while y < src.params.height
      invariant 0 <= y <= src.params.height
      invariant GrayTo(f, Shot(dst), y)
      invariant SamePadding(dst.planes, old(dst.data[..]), dst.data[..])
    {
      ghost var g := Shot(dst);
      GrayRgbRow(src, dst, y);
      GrayFurther(f, g, Shot(dst), y);
      PackedPlanes(g, y);
      PaddingOfRow(dst.planes, g.data, dst.data[..], y, false);
      PaddingChain(dst.planes, old(dst.data[..]), g.data, dst.data[..]);
      y := y + 1;
    }
    err := SUCCESS;
  }

  method CopyRow(src: Framebuffer, dst: Framebuffer, y: nat)
    requires Apart(src, RAW8, dst, YUV420P) && y < src.params.height
    modifies dst.data
    ensures CopiedRow(Shot(src), Shot(dst), y)
    ensures OnlyRow(dst.planes, old(dst.data[..]), dst.data[..], y, false)
  {
    ghost var f, d := Shot(src), dst.data[..];
    var width := src.params.width;
    var s0 := PackedStart(src, y);
    LumaPlane(Shot(dst), y);
    var y0 := y * dst.planes[0].stride;
    Copy(src.data, s0, dst.data, y0, width);
    SpansOfRow(dst.planes, d, dst.data[..], y, false, y0, width, 0, 0, 0, 0);
    CopiedRowWritten(f, Shot(dst), y, s0, y0);
  }

  /** The luma plane of YUV420P, also of odd-sized frames. */
  lemma LumaPlane(g: Picture, y: nat)
    requires Framed(g) && g.params.format == YUV420P && y < g.params.height
    ensures |g.planes| == MAX_PLANES && AllSound(g.planes) && HasRow(g.planes, y, false)
    ensures g.planes[0].lineSize == g.params.width && y * g.planes[0].stride == LineStart(g.planes, 0, y)
    ensures LineStart(g.planes, 0, y) + g.planes[0].lineSize <= Base(g.planes, 1) <= |g.data|
    ensures g.planes[0].size == Base(g.planes, 1)
  {
    PlanesSound(g.params);
    LineInPlane(g.planes, 0, y);
    FirstBases(g.planes);
  }

  lemma CopiedRowWritten(f: Picture, g: Picture, y: nat, s0: nat, y0: nat)
    requires |f.planes| == |g.planes| == MAX_PLANES
    requires s0 == LineStart(f.planes, 0, y) && y0 == LineStart(g.planes, 0, y)
    requires Line(g.data, y0, f.params.width, Copies(f.data, s0))
    ensures CopiedRow(f, g, y)
  {
    forall x: nat | x < f.params.width ensures Pix(g.planes, g.data, 0, x, y) == Pix(f.planes, f.data, 0, x, y) {
      assert Pix(g.planes, g.data, 0, x, y) == ByteAt(g.data, y0, x);
    }
  }

  ghost predicate Neutral(d: seq<byte>, from: nat) {
    forall i | from <= i < |d| :: d[i] == 128
  }

  ghost predicate CopiedTo(f: Picture, g: Picture, y: nat)
    requires |f.planes| == |g.planes| == MAX_PLANES
  {
    (forall j: nat | j < y :: CopiedRow(f, g, j)) && Neutral(g.data, Base(g.planes, 1))
  }

  lemma CopiedFurther(f: Picture, g: Picture, h: Picture, y: nat)
    requires Pair(f, RAW8, g, YUV420P) && h == g.(data := h.data) && y < f.params.height
    requires OnlyRow(g.planes, g.data, h.data, y, false) && CopiedTo(f, g, y) && CopiedRow(f, h, y)
    ensures CopiedTo(f, h, y + 1)
  {
    LumaPlane(g, y);
    forall j: nat | j < y ensures CopiedRow(f, h, j) {
      assert CopiedRow(f, g, j);
      forall x: nat | x < f.params.width ensures Pix(h.planes, h.data, 0, x, j) == Pix(g.planes, g.data, 0, x, j) {
        LineKept(g.planes, g.data, h.data, y, false, 0, x, j);
      }
    }
  }

  /** memset. */
  method Fill(a: array<byte>, from: nat, n: nat, b: byte)
    requires from + n <= a.Length
    modifies a
    ensures forall i :: 0 <= i < a.Length ==> a[i] == if from <= i < from + n then b else old(a[i])
  {
    forall i | from <= i < from + n { a[i] := b; }
  }

  /** Bytes of the luma plane outside its lines are the same. */
  ghost predicate SameLumaPadding(planes: seq<Plane>, d: seq<byte>, e: seq<byte>)
    requires |planes| == MAX_PLANES
  {
    |e| == |d| && forall i: nat | i < |d| && i < Base(planes, 1) && e[i] != d[i] :: OnLumaLine(planes, i)
  }

  ghost predicate OnLumaLine(planes: seq<Plane>, i: nat)
    requires |planes| == MAX_PLANES
  {
    exists j: nat :: j < planes[0].height && InLine(planes, 0, j, i)
  }

  lemma LumaPaddingFurther(planes: seq<Plane>, c: seq<byte>, d: seq<byte>, e: seq<byte>, y: nat)
    requires |planes| == MAX_PLANES && SameLumaPadding(planes, c, d)
    requires OnlyRow(planes, d, e, y, false) && y < planes[0].height
    ensures SameLumaPadding(planes, c, e)
  {
    forall i: nat | i < |c| && i < Base(planes, 1) && e[i] != c[i] ensures OnLumaLine(planes, i) {
      if d[i] == c[i] {
        assert InLine(planes, 0, y, i);
      }
    }
  }

  lemma CopiedAll(f: Picture, g: Picture)
    requires Pair(f, RAW8, g, YUV420P) && |f.planes| == |g.planes| == MAX_PLANES && CopiedTo(f, g, f.params.height)
    ensures ConversionOf(f, g)
  {
    assert GrayPlanarOf(f, g);
  }

  /** Both chroma planes become neutral. */
  method FillChroma(dst: Framebuffer)
    requires dst.data != null && Framed(Shot(dst)) && dst.params.format == YUV420P
    modifies dst.data
    ensures |dst.planes| == MAX_PLANES && Neutral(dst.data[..], Base(dst.planes, 1))
    ensures SameLumaPadding(dst.planes, old(dst.data[..]), dst.data[..])
  {
    PlanesSound(dst.params);
    SumOfSizes(dst.planes);
    FirstBases(dst.planes);
    var uPlane := dst.planes[0].size;
    var vPlane := uPlane + dst.planes[1].size;
    Fill(dst.data, uPlane, dst.planes[1].size, 128);
    Fill(dst.data, vPlane, dst.planes[2].size, 128);
  }

  /** convert_raw8_to_yuv420p. Both chroma planes are neutral, padding included; the luma padding stays. */
  method GrayToPlanar(src: Framebuffer?, dst: Framebuffer?) returns (err: VfErr)
    requires Usable(src, RAW8, dst, YUV420P)
    modifies Written(dst)
    ensures Outcome(src, dst, err)
    ensures err == SUCCESS ==> SameLumaPadding(dst.planes, old(dst.data[..]), dst.data[..])
  {
    hide Neutral, CopiedRow, OnlyRow, OnLumaLine, Base, ConversionOf;
    var ok := ValidateFramebuffers(src, dst);
    if !ok {
      return CONV_PROCESSING_ERR;
    }
    PlanesSound(src.params);
    PlanesSound(dst.params);
    ghost var f := Shot(src);
    FillChroma(dst);
    var y := 0;
    while y < src.params.height
      invariant 0 <= y <= src.params.height
      invariant CopiedTo(f, Shot(dst), y)
      invariant SameLumaPadding(dst.planes, old(dst.data[..]), dst.data[..])
    {
      ghost var g := Shot(dst);
      CopyRow(src, dst, y);
      CopiedFurther(f, g, Shot(dst), y);
      LumaPaddingFurther(dst.planes, old(dst.data[..]), g.data, dst.data[..], y);
      y := y + 1;
    }
    CopiedAll(f, Shot(dst));
    err := SUCCESS;
  }

  // --- The table

  datatype ConvertFn = ConvertRgb888ToYuv420p | ConvertBgr888ToYuv420p | ConvertYuv420pToRgb888 | ConvertRgb888ToNv12
                     | ConvertNv12ToRgb888 | ConvertRaw8ToRgb888 | ConvertRaw8ToYuv420p | ConvertYuyvToRgb888

  datatype Entry = Entry(src: PixelFmt, dst: PixelFmt, fn: ConvertFn)

  const TABLE: seq<Entry> := [
    Entry(RGB888, YUV420P, ConvertRgb888ToYuv420p),
    Entry(BGR888, YUV420P, ConvertBgr888ToYuv420p),
    Entry(YUV420P, RGB888, ConvertYuv420pToRgb888),
    Entry(RGB888, NV12, ConvertRgb888ToNv12),
    Entry(NV12, RGB888, ConvertNv12ToRgb888),
    Entry(RAW8, RGB888, ConvertRaw8ToRgb888),
    Entry(RAW8, YUV420P, ConvertRaw8ToYuv420p),
    Entry(YUYV, RGB888, ConvertYuyvToRgb888)]

  /** The pairs of formats a conversion exists for. */
  predicate Supported(src: PixelFmt, dst: PixelFmt) {
    if dst == YUV420P then src in {RGB888, BGR888, RAW8}
    else if dst == RGB888 then src in {YUV420P, NV12, RAW8, YUYV}
    else src == RGB888 && dst == NV12
  }

  /** What each converter reads and writes. */
  function FormatsOf(fn: ConvertFn): (PixelFmt, PixelFmt) {
    match fn
    case ConvertRgb888ToYuv420p => (RGB888, YUV420P)
    case ConvertBgr888ToYuv420p => (BGR888, YUV420P)
    case ConvertYuv420pToRgb888 => (YUV420P, RGB888)
    case ConvertRgb888ToNv12 => (RGB888, NV12)
    case ConvertNv12ToRgb888 => (NV12, RGB888)
    case ConvertRaw8ToRgb888 => (RAW8, RGB888)
    case ConvertRaw8ToYuv420p => (RAW8, YUV420P)
    case ConvertYuyvToRgb888 => (YUYV, RGB888)
  }

  /** A conversion exists for eight pairs of formats. */
  lemma SupportedPairs(src: PixelFmt, dst: PixelFmt)
    ensures Supported(src, dst) <==>
      (src, dst) in {(RGB888, YUV420P), (BGR888, YUV420P), (YUV420P, RGB888), (RGB888, NV12), (NV12, RGB888),
                     (RAW8, RGB888), (RAW8, YUV420P), (YUYV, RGB888)}
  {
  }

  /** None of the converters is out of reach. */
  lemma EveryConverterFound(fn: ConvertFn)
    ensures Supported(FormatsOf(fn).0, FormatsOf(fn).1)
  {
  }

  /** Walks the table: an entry is found exactly for the supported pairs, with the converter for them. */
  method LookupConvertFn(src: PixelFmt, dst: PixelFmt) returns (fn: Option<ConvertFn>)
    ensures fn.Some? <==> Supported(src, dst)
    ensures fn.Some? ==> FormatsOf(fn.value) == (src, dst)
  {
    var i := 0;
    while i < |TABLE|
      invariant 0 <= i <= |TABLE|
      invariant forall k :: 0 <= k < i ==> TABLE[k].src != src || TABLE[k].dst != dst
    {
      if TABLE[i].src == src && TABLE[i].dst == dst {
        return Some(TABLE[i].fn);
      }
      i := i + 1;
    }
    NoneMissing(src, dst);
    fn := None;
  }

  lemma NoneMissing(src: PixelFmt, dst: PixelFmt)
    requires forall k :: 0 <= k < |TABLE| ==> TABLE[k].src != src || TABLE[k].dst != dst
    ensures !Supported(src, dst)
  {
    assert TABLE[0].src != src || TABLE[0].dst != dst;
    assert TABLE[1].src != src || TABLE[1].dst != dst;
    assert TABLE[2].src != src || TABLE[2].dst != dst;
    assert TABLE[3].src != src || TABLE[3].dst != dst;
    assert TABLE[4].src != src || TABLE[4].dst != dst;
    assert TABLE[5].src != src || TABLE[5].dst != dst;
    assert TABLE[6].src != src || TABLE[6].dst != dst;
    assert TABLE[7].src != src || TABLE[7].dst != dst;
  }

  method IsSupported(src: PixelFmt, dst: PixelFmt) returns (yes: bool)
    ensures yes <==> Supported(src, dst)
  {
    var fn := LookupConvertFn(src, dst);
    yes := fn.Some?;
  }

  /** A call of the converter the table names. */
  method Apply(fn: ConvertFn, src: Framebuffer?, dst: Framebuffer?) returns (err: VfErr)
    requires Usable(src, FormatsOf(fn).0, dst, FormatsOf(fn).1)
    modifies Written(dst)
    ensures Outcome(src, dst, err)
  {
    match fn {
      case ConvertRgb888ToYuv420p => err := RgbToPlanar(src, dst, false);
      case ConvertBgr888ToYuv420p => err := RgbToPlanar(src, dst, true);
      case ConvertYuv420pToRgb888 => err := ToRgb(src, dst, YUV420P);
      case ConvertRgb888ToNv12 => err := RgbToInterleaved(src, dst);
      case ConvertNv12ToRgb888 => err := ToRgb(src, dst, NV12);
      case ConvertRaw8ToRgb888 => err := GrayToRgb(src, dst);
      case ConvertRaw8ToYuv420p => err := GrayToPlanar(src, dst);
      case ConvertYuyvToRgb888 => err := ToRgb(src, dst, YUYV);
    }
  }

  // --- The context

  class Context {
    var srcFmt: PixelFmt
    var dstFmt: PixelFmt
    var convertFn: Option<ConvertFn>
    var initialized: bool

    /** Zeroed memory. */
    constructor ()
      ensures !initialized && convertFn == None
    {
      srcFmt, dstFmt, convertFn, initialized := UNKNOWN, UNKNOWN, None, false;
    }

    /** Initialised contexts hold the table's entry for their formats. */
    ghost predicate Valid()
      reads this
    {
      initialized ==> convertFn.Some? && FormatsOf(convertFn.value) == (srcFmt, dstFmt)
    }

    method Init(src: PixelFmt, dst: PixelFmt) returns (err: VfErr)
      modifies this
      ensures Valid() && err == (if Supported(src, dst) then SUCCESS else CONV_INIT_ERR)
      ensures initialized <==> Supported(src, dst)
      ensures if initialized then srcFmt == src && dstFmt == dst
              else srcFmt == UNKNOWN && dstFmt == UNKNOWN && convertFn == None
    {
      srcFmt, dstFmt, convertFn, initialized := UNKNOWN, UNKNOWN, None, false;
      var fn := LookupConvertFn(src, dst);
      if fn.None? {
        return CONV_INIT_ERR;
      }
      srcFmt, dstFmt, convertFn, initialized := src, dst, fn, true;
      err := SUCCESS;
    }

    /** Which error a call gets, in the order of the checks. */
    ghost function Verdict(src: Framebuffer?, dst: Framebuffer?): VfErr
      reads this, src, dst
    {
      if !initialized then CONV_PROCESSING_ERR
      else if src == null || dst == null then INVALID_PARAMETER
      else if src.params.format != srcFmt || dst.params.format != dstFmt then CONV_PROCESSING_ERR
      else if Matching(src, dst) then SUCCESS
      else CONV_PROCESSING_ERR
    }

    /** Whatever the context was initialised for, a call that is not refused makes dst the conversion
        of src. */
    method Process(src: Framebuffer?, dst: Framebuffer?) returns (err: VfErr)
      requires Valid() && Laid(src) && Laid(dst)
      requires src != null && dst != null && src.data != null ==> src.data != dst.data
      requires src != null && (SharesChroma(srcFmt) || (SharesChroma(dstFmt) && srcFmt != RAW8)) ==>
                 src.params.width % 2 == 0 && src.params.height % 2 == 0
      modifies Written(dst)
      ensures err == Verdict(src, dst)
      ensures err == SUCCESS ==> ConversionOf(Shot(src), Shot(dst))
      ensures err != SUCCESS && dst != null && dst.data != null ==> dst.data[..] == old(Now(dst))
    {
      if !initialized {
        return CONV_PROCESSING_ERR;
      }
      if src == null || dst == null {
        return INVALID_PARAMETER;
      }
      if src.params.format != srcFmt {
        return CONV_PROCESSING_ERR;
      }
      if dst.params.format != dstFmt {
        return CONV_PROCESSING_ERR;
      }
      err := Apply(convertFn.value, src, dst);
    }

    method Deinit()
      modifies this
      ensures Valid() && !initialized
    {
      srcFmt, dstFmt, convertFn, initialized := UNKNOWN, UNKNOWN, None, false;
    }
  }

  /** The bytes of a frame, empty without data. */
  ghost function Now(fb: Framebuffer?): seq<byte>
    reads fb, Written(fb)
  {
    if fb == null || fb.data == null then [] else fb.data[..]
  }
}
