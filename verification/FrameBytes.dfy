/** The conversions byte by byte: at which offset of a frame each sample of a pixel lies, written out for every
    format, and what the converters put there. Lines start at multiples of 16 bytes. */
module FrameBytes {
  import opened Layout
  import opened Bt601
  import opened Pictures
  import opened ConvRows

  /** The distance of two lines of n bytes. */
  function Apart16(n: nat): nat {
    (n + 15) / 16 * 16
  }

  /** What the first n lines of so many bytes take. */
  function Lines16(bytes: nat, n: nat): nat {
    Apart16(bytes) * n
  }

  /** Where the three bytes of a pixel of RGB888 or BGR888 begin. */
  function ColorOffset(p: Params, x: nat, y: nat): nat {
    Lines16(3 * p.width, y) + 3 * x
  }

  function LumaOffset(p: Params, x: nat, y: nat): nat {
    if p.format == YUYV then Lines16(2 * p.width, y) + 2 * x else Lines16(p.width, y) + x
  }

  /** U of the pixel: in a plane of its own behind the luma plane, the first of a pair there, or the second of
      four bytes for two pixels. */
  function UOffset(p: Params, x: nat, y: nat): nat {
    match p.format
    case YUV420P => Lines16(p.width, p.height) + Lines16(p.width / 2, y / 2) + x / 2
    case NV12 => Lines16(p.width, p.height) + Lines16(p.width, y / 2) + x / 2 * 2
    case _ => Lines16(2 * p.width, y) + x / 2 * 4 + 1
  }

  /** V of the pixel: in the plane behind that of U, the second of the pair, or the fourth of the four bytes. */
  function VOffset(p: Params, x: nat, y: nat): nat {
    match p.format
    case YUV420P =>
      Lines16(p.width, p.height) + Lines16(p.width / 2, p.height / 2) + Lines16(p.width / 2, y / 2) + x / 2
    case NV12 => Lines16(p.width, p.height) + Lines16(p.width, y / 2) + x / 2 * 2 + 1
    case _ => Lines16(2 * p.width, y) + x / 2 * 4 + 3
  }

  predicate Inside(f: Picture, x: nat, y: nat) {
    Framed(f) && x < f.params.width && y < f.params.height
  }

  lemma SameRounding(bytes: nat, n: nat)
    ensures Align(bytes) * n == n * Align(bytes) == Lines16(bytes, n)
  {
    assert Align(bytes) == Apart16(bytes);
  }

  lemma ColorThere(f: Picture, x: nat, y: nat)
    requires Inside(f, x, y) && f.params.format in {RGB888, BGR888}
    ensures |f.planes| == MAX_PLANES && ColorOffset(f.params, x, y) + 2 < |f.data|
    ensures LineStart(f.planes, 0, y) + 3 * x == ColorOffset(f.params, x, y)
  {
    hide Lines16, Align, Base;
    SameRounding(3 * f.params.width, y);
    PackedPlanes(f, y);
  }

  /** The color an encoder reads. */
  function ColorBytes(f: Picture, x: nat, y: nat, bgr: bool): Rgb
    requires Inside(f, x, y) && f.params.format == if bgr then BGR888 else RGB888
  {
    ColorThere(f, x, y);
    var i := ColorOffset(f.params, x, y);
    if bgr then Rgb(f.data[i + 2], f.data[i + 1], f.data[i]) else Rgb(f.data[i], f.data[i + 1], f.data[i + 2])
  }

  lemma ColorIsBytes(f: Picture, x: nat, y: nat, bgr: bool)
    requires Inside(f, x, y) && f.params.format == if bgr then BGR888 else RGB888
    ensures |f.planes| == MAX_PLANES && ColorAt(f.planes, f.data, x, y, bgr) == ColorBytes(f, x, y, bgr)
  {
    ColorThere(f, x, y);
  }

  predicate SamplesInside(f: Picture, x: nat, y: nat) {
    && LumaOffset(f.params, x, y) < |f.data|
    && UOffset(f.params, x, y) < |f.data|
    && VOffset(f.params, x, y) < |f.data|
  }

  /** The bytes that hold luma, U and V of a pixel. */
  function Samples(f: Picture, x: nat, y: nat): (byte, byte, byte)
    requires SamplesInside(f, x, y)
  {
    (f.data[LumaOffset(f.params, x, y)], f.data[UOffset(f.params, x, y)], f.data[VOffset(f.params, x, y)])
  }

  lemma SamplesThere(f: Picture, x: nat, y: nat)
    requires Inside(f, x, y) && Even(f) && f.params.format in {YUV420P, NV12, YUYV}
    ensures SamplesInside(f, x, y) && Yuv(f, x, y) == Samples(f, x, y)
  {
    match f.params.format
    case YUV420P => PlanarThere(f, x, y);
    case NV12 => InterleavedThere(f, x, y);
    case YUYV => PackedThere(f, x, y);
  }

  lemma PlanarThere(f: Picture, x: nat, y: nat)
    requires Inside(f, x, y) && Even(f) && f.params.format == YUV420P
    ensures SamplesInside(f, x, y) && Yuv(f, x, y) == Samples(f, x, y)
  {
    hide Lines16, Align, LineStart;
    SameRounding(f.params.width, y);
    SameRounding(f.params.width, f.params.height);
    SameRounding(f.params.width / 2, y / 2);
    SameRounding(f.params.width / 2, f.params.height / 2);
    PlanarPlanes(f, y);
  }

  lemma InterleavedThere(f: Picture, x: nat, y: nat)
    requires Inside(f, x, y) && Even(f) && f.params.format == NV12
    ensures SamplesInside(f, x, y) && Yuv(f, x, y) == Samples(f, x, y)
  {
    hide Lines16, Align, LineStart;
    SameRounding(f.params.width, y);
    SameRounding(f.params.width, f.params.height);
    SameRounding(f.params.width, y / 2);
    InterleavedPlanes(f, y);
  }

  lemma PairInside(x: nat, width: nat)
    requires x < width && width % 2 == 0
    ensures x / 2 * 4 + 3 < 2 * width && 2 * x < 2 * width
  {
  }

  lemma PackedStride(f: Picture)
    requires Framed(f) && f.params.format == YUYV
    ensures |f.planes| == MAX_PLANES && f.planes[0].stride == Align(2 * f.params.width)
  {
    hide Align;
    assert f.params.width * 16 / 8 == 2 * f.params.width;
  }

  lemma PackedThere(f: Picture, x: nat, y: nat)
    requires Inside(f, x, y) && Even(f) && f.params.format == YUYV
    ensures SamplesInside(f, x, y) && Yuv(f, x, y) == Samples(f, x, y)
  {
    hide Lines16, Align, LineStart, PlanesOf;
    SameRounding(2 * f.params.width, y);
    PackedPlanes(f, y);
    PackedStride(f);
    PairInside(x, f.params.width);
  }

  // --- What the converters leave, as bytes

  /** The luma byte of each pixel encodes that pixel, and the chroma bytes of its block the even-even pixel of
      the block. */
  lemma EncodedBytes(f: Picture, g: Picture, bgr: bool, x: nat, y: nat)
    requires EncodedAs(f, g, bgr) && Even(f) && x < f.params.width && y < f.params.height
    ensures Inside(f, x, y) && Inside(f, x / 2 * 2, y / 2 * 2)
    ensures f.params.format == (if bgr then BGR888 else RGB888) && SamplesInside(g, x, y)
    ensures Samples(g, x, y) == EncodedSamples(ColorBytes(f, x, y, bgr), ColorBytes(f, x / 2 * 2, y / 2 * 2, bgr))
  {
    hide Yuv, ColorAt, ColorBytes, SamplesInside, Samples, PlanarOf, InterleavedOf;
    BlockInside(x, y);
    EncodedFrames(f, g, bgr);
    SamplesThere(g, x, y);
    ColorIsBytes(f, x, y, bgr);
    ColorIsBytes(f, x / 2 * 2, y / 2 * 2, bgr);
    if PlanarOf(f, g, bgr) {
      PlanarYuv(f, g, x, y, bgr);
    } else {
      InterleavedColors(f, g, x, y);
    }
  }

  /** g is f in one of the two layouts that share chroma. */
  ghost predicate EncodedAs(f: Picture, g: Picture, bgr: bool) {
    PlanarOf(f, g, bgr) || (!bgr && InterleavedOf(f, g))
  }

  lemma EncodedFrames(f: Picture, g: Picture, bgr: bool)
    requires EncodedAs(f, g, bgr)
    ensures Framed(f) && Framed(g) && SameSize(f, g) && |f.planes| == MAX_PLANES
    ensures f.params.format == (if bgr then BGR888 else RGB888) && g.params.format in {YUV420P, NV12}
  {
  }

  /** A pixel's own luma, and the chroma of the sample of its block. */
  function EncodedSamples(p: Rgb, sample: Rgb): (byte, byte, byte) {
    (ToY(p), ToU(sample), ToV(sample))
  }

  lemma BlockInside(x: nat, y: nat)
    ensures x / 2 * 2 <= x && y / 2 * 2 <= y
  {
  }

  lemma InterleavedColors(f: Picture, g: Picture, x: nat, y: nat)
    requires InterleavedOf(f, g) && Even(f) && x < f.params.width && y < f.params.height
    ensures var p, q := ColorAt(f.planes, f.data, x, y, false), ColorAt(f.planes, f.data, x / 2 * 2, y / 2 * 2, false);
            Yuv(g, x, y) == (ToY(p), ToU(q), ToV(q))
  {
    hide ColorAt, ToY, ToU, ToV;
    InterleavedYuv(f, g, x, y);
  }

  /** Each pixel decodes its own luma byte and the chroma bytes of its block or pair. */
  lemma DecodedBytes(f: Picture, g: Picture, x: nat, y: nat)
    requires DecodedOf(f, g) && Even(f) && x < f.params.width && y < f.params.height
    ensures SamplesInside(f, x, y) && Inside(g, x, y) && g.params.format == RGB888
    ensures var (l, u, v) := Samples(f, x, y); ColorBytes(g, x, y, false) == Decode(l, u, v)
  {
    hide Yuv, ColorAt, ColorBytes, SamplesInside, Samples, Decode;
    assert DecodedRow(f, g, y);
    SamplesThere(f, x, y);
    ColorIsBytes(g, x, y, false);
  }

  /** A sensor byte becomes the three channels of its pixel, or its luma byte. */
  lemma SensorBytes(f: Picture, g: Picture, x: nat, y: nat)
    requires x < f.params.width && y < f.params.height && (GrayRgbOf(f, g) || GrayPlanarOf(f, g))
    ensures LumaOffset(f.params, x, y) < |f.data|
    ensures GrayRgbOf(f, g) ==>
      && Inside(g, x, y) && g.params.format == RGB888
      && var p := f.data[LumaOffset(f.params, x, y)]; ColorBytes(g, x, y, false) == Rgb(p, p, p)
    ensures GrayPlanarOf(f, g) ==>
      && LumaOffset(g.params, x, y) < |g.data|
      && g.data[LumaOffset(g.params, x, y)] == f.data[LumaOffset(f.params, x, y)]
  {
    hide ColorAt, ColorBytes, LumaOffset, Pix;
    SensorThere(f, x, y);
    if GrayRgbOf(f, g) {
      assert GrayRow(f, g, y);
      ColorIsBytes(g, x, y, false);
    } else {
      assert CopiedRow(f, g, y);
      CopiedThere(g, x, y);
    }
  }

  lemma SensorThere(f: Picture, x: nat, y: nat)
    requires Inside(f, x, y) && f.params.format == RAW8
    ensures |f.planes| == MAX_PLANES && LumaOffset(f.params, x, y) < |f.data|
    ensures Pix(f.planes, f.data, 0, x, y) == f.data[LumaOffset(f.params, x, y)]
  {
    hide Lines16, Align;
    SameRounding(f.params.width, y);
    PackedPlanes(f, y);
  }

  lemma CopiedThere(g: Picture, x: nat, y: nat)
    requires Inside(g, x, y) && g.params.format == YUV420P
    ensures |g.planes| == MAX_PLANES && LumaOffset(g.params, x, y) < |g.data|
    ensures Pix(g.planes, g.data, 0, x, y) == g.data[LumaOffset(g.params, x, y)]
  {
    hide Lines16, Align;
    SameRounding(g.params.width, y);
    PlanesSound(g.params);
    LineInPlane(g.planes, 0, y);
  }
}
