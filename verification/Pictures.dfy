/** What the bytes of a frame mean as a picture, and what it means that one frame is the conversion
    of another. Everything here is about values; the converters are proved against it. */
module Pictures {
  import opened Options
  import opened Layout
  import opened Bt601

  function At(d: seq<byte>, i: nat): byte {
    if i < |d| then d[i] else 0
  }

  /** Three bytes as a pixel, in the order RGB or BGR. */
  function ColorFrom(d: seq<byte>, i: nat, bgr: bool): Rgb {
    if bgr then Rgb(At(d, i + 2), At(d, i + 1), At(d, i)) else Rgb(At(d, i), At(d, i + 1), At(d, i + 2))
  }

  /** Byte x of line y of plane k. */
  function Pix(planes: seq<Plane>, d: seq<byte>, k: nat, x: nat, y: nat): byte
    requires k < |planes|
  {
    At(d, LineStart(planes, k, y) + x)
  }

  /** Pixel x of line y as an encoder reads it. */
  function ColorAt(planes: seq<Plane>, d: seq<byte>, x: nat, y: nat, bgr: bool): Rgb
    requires |planes| == MAX_PLANES
  {
    ColorFrom(d, LineStart(planes, 0, y) + 3 * x, bgr)
  }

  function RgbAt(planes: seq<Plane>, d: seq<byte>, x: nat, y: nat): Rgb
    requires |planes| == MAX_PLANES
  {
    ColorAt(planes, d, x, y, false)
  }

  /** A frame as a value: parameters, planes and bytes that fit together. */
  datatype Picture = Picture(params: Params, planes: seq<Plane>, data: seq<byte>)

  predicate Framed(f: Picture) {
    PlanesOf(f.params) == Some(f.planes) && |f.data| == TotalSize(f.planes)
  }

  predicate Even(f: Picture) {
    f.params.width % 2 == 0 && f.params.height % 2 == 0
  }

  predicate SameSize(f: Picture, g: Picture) {
    f.params.width == g.params.width && f.params.height == g.params.height
  }

  /** f holds pixels of three bytes and g the same-sized frame in the given format. */
  predicate Pair(f: Picture, src: PixelFmt, g: Picture, dst: PixelFmt) {
    && Framed(f) && Framed(g) && SameSize(f, g)
    && f.params.format == src && g.params.format == dst
    && |f.planes| == |g.planes| == MAX_PLANES
  }

  // --- Encoding to 4:2:0

  ghost predicate LumaRow(f: Picture, g: Picture, y: nat, bgr: bool)
    requires |f.planes| == |g.planes| == MAX_PLANES
  {
    forall x: nat | x < f.params.width :: Pix(g.planes, g.data, 0, x, y) == ToY(ColorAt(f.planes, f.data, x, y, bgr))
  }

  ghost predicate PlanarChromaRow(f: Picture, g: Picture, y: nat, bgr: bool)
    requires |f.planes| == |g.planes| == MAX_PLANES
  {
    forall x: nat | x < f.params.width / 2 ::
      && Pix(g.planes, g.data, 1, x, y) == ToU(ColorAt(f.planes, f.data, 2 * x, 2 * y, bgr))
      && Pix(g.planes, g.data, 2, x, y) == ToV(ColorAt(f.planes, f.data, 2 * x, 2 * y, bgr))
  }

  ghost predicate InterleavedChromaRow(f: Picture, g: Picture, y: nat)
    requires |f.planes| == |g.planes| == MAX_PLANES
  {
    forall x: nat | x < f.params.width / 2 ::
      && Pix(g.planes, g.data, 1, 2 * x, y) == ToU(RgbAt(f.planes, f.data, 2 * x, 2 * y))
      && Pix(g.planes, g.data, 1, 2 * x + 1, y) == ToV(RgbAt(f.planes, f.data, 2 * x, 2 * y))
  }

  /** g is f in YUV420P: luma of every pixel, chroma of the even-even ones. */
  ghost predicate PlanarOf(f: Picture, g: Picture, bgr: bool) {
    && Pair(f, if bgr then BGR888 else RGB888, g, YUV420P)
    && (forall y: nat | y < f.params.height :: LumaRow(f, g, y, bgr))
    && (forall y: nat | y < f.params.height / 2 :: PlanarChromaRow(f, g, y, bgr))
  }

  /** g is f in NV12. */
  ghost predicate InterleavedOf(f: Picture, g: Picture) {
    && Pair(f, RGB888, g, NV12)
    && (forall y: nat | y < f.params.height :: LumaRow(f, g, y, false))
    && (forall y: nat | y < f.params.height / 2 :: InterleavedChromaRow(f, g, y))
  }

  // --- Decoding to RGB

  /** Luma and chroma of pixel (x, y) as the decoder of each layout finds them. */
  function Yuv(f: Picture, x: nat, y: nat): (byte, byte, byte)
    requires |f.planes| == MAX_PLANES
  {
    match f.params.format
    case NV12 =>
      (Pix(f.planes, f.data, 0, x, y),
       Pix(f.planes, f.data, 1, x / 2 * 2, y / 2), Pix(f.planes, f.data, 1, x / 2 * 2 + 1, y / 2))
    case YUYV =>
      (Pix(f.planes, f.data, 0, 2 * x, y),
       Pix(f.planes, f.data, 0, x / 2 * 4 + 1, y), Pix(f.planes, f.data, 0, x / 2 * 4 + 3, y))
    case _ =>
      (Pix(f.planes, f.data, 0, x, y), Pix(f.planes, f.data, 1, x / 2, y / 2), Pix(f.planes, f.data, 2, x / 2, y / 2))
  }

  ghost predicate DecodedRow(f: Picture, g: Picture, y: nat)
    requires |f.planes| == |g.planes| == MAX_PLANES
  {
    forall x: nat | x < f.params.width ::
      RgbAt(g.planes, g.data, x, y) == var (l, u, v) := Yuv(f, x, y); Decode(l, u, v)
  }

  /** g is f decoded to RGB888. */
  ghost predicate DecodedOf(f: Picture, g: Picture) {
    && Pair(f, f.params.format, g, RGB888)
    && f.params.format in {YUV420P, NV12, YUYV}
    && (forall y: nat | y < f.params.height :: DecodedRow(f, g, y))
  }

  // --- Gray sensor frames

  ghost predicate GrayRow(f: Picture, g: Picture, y: nat)
    requires |f.planes| == |g.planes| == MAX_PLANES
  {
    forall x: nat | x < f.params.width ::
      var p := Pix(f.planes, f.data, 0, x, y); RgbAt(g.planes, g.data, x, y) == Rgb(p, p, p)
  }

  ghost predicate GrayRgbOf(f: Picture, g: Picture) {
    && Pair(f, RAW8, g, RGB888)
    && (forall y: nat | y < f.params.height :: GrayRow(f, g, y))
  }

  ghost predicate CopiedRow(f: Picture, g: Picture, y: nat)
    requires |f.planes| == |g.planes| == MAX_PLANES
  {
    forall x: nat | x < f.params.width :: Pix(g.planes, g.data, 0, x, y) == Pix(f.planes, f.data, 0, x, y)
  }

  /** Luma copied, both chroma planes neutral up to their last padding byte. */
  ghost predicate GrayPlanarOf(f: Picture, g: Picture) {
    && Pair(f, RAW8, g, YUV420P)
    && (forall y: nat | y < f.params.height :: CopiedRow(f, g, y))
    && (forall i :: Base(g.planes, 1) <= i < |g.data| ==> g.data[i] == 128)
  }

  /** A gray sensor frame comes back from YUV420P gray at every pixel: each channel is what the standard makes
      of the sensor value as luma. */
  lemma SensorStaysGray(f: Picture, mid: Picture, g: Picture, x: nat, y: nat)
    requires GrayPlanarOf(f, mid) && DecodedOf(mid, g)
    requires Even(f) && x < f.params.width && y < f.params.height
    ensures var q := RgbAt(g.planes, g.data, x, y);
            Gray(q) && Shows(q.r, Luma(Pix(f.planes, f.data, 0, x, y)))
  {
    hide Pix, Decode, Shows, Gray, RgbAt;
    assert CopiedRow(f, mid, y) && DecodedRow(mid, g, y);
    NeutralChroma(f, mid, x, y);
    NeutralIsGray(Pix(f.planes, f.data, 0, x, y));
  }

  lemma NeutralIsGray(l: byte)
    ensures var q := Decode(l, 128, 128); Gray(q) && Shows(q.r, Luma(l))
  {
    DecodeNearStandard(l, 128, 128);
  }

  lemma NeutralChroma(f: Picture, mid: Picture, x: nat, y: nat)
    requires GrayPlanarOf(f, mid) && Even(f) && x < f.params.width && y < f.params.height
    ensures Yuv(mid, x, y) == (Pix(mid.planes, mid.data, 0, x, y), 128, 128)
  {
    PlanesSound(mid.params);
    ChromaByte(mid, 1, x / 2, y / 2);
    ChromaByte(mid, 2, x / 2, y / 2);
  }

  lemma ChromaByte(mid: Picture, k: nat, x: nat, y: nat)
    requires |mid.planes| == MAX_PLANES && AllSound(mid.planes) && |mid.data| == TotalSize(mid.planes)
    requires forall i | Base(mid.planes, 1) <= i < |mid.data| :: mid.data[i] == 128
    requires 1 <= k < MAX_PLANES && x < mid.planes[k].lineSize && y < mid.planes[k].height
    ensures Pix(mid.planes, mid.data, k, x, y) == 128
  {
    LineInPlane(mid.planes, k, y);
    BaseMonotone(mid.planes, 1, k);
  }

  // --- Theorems about pictures

  /** The pixel whose chroma stands for the 2x2 block of (x, y). */
  function Sample(f: Picture, x: nat, y: nat): Rgb
    requires |f.planes| == MAX_PLANES
  {
    RgbAt(f.planes, f.data, x / 2 * 2, y / 2 * 2)
  }

  lemma PlanarYuv(f: Picture, mid: Picture, x: nat, y: nat, bgr: bool)
    requires Even(f) && x < f.params.width && y < f.params.height && PlanarOf(f, mid, bgr)
    ensures var p, q := ColorAt(f.planes, f.data, x, y, bgr), ColorAt(f.planes, f.data, x / 2 * 2, y / 2 * 2, bgr);
            Yuv(mid, x, y) == (ToY(p), ToU(q), ToV(q))
  {
    hide ToY, ToU, ToV, ColorAt, Pix;
    assert LumaRow(f, mid, y, bgr);
    assert PlanarChromaRow(f, mid, y / 2, bgr);
    assert x / 2 < f.params.width / 2 && 2 * (x / 2) == x / 2 * 2 && 2 * (y / 2) == y / 2 * 2;
  }

  lemma InterleavedYuv(f: Picture, mid: Picture, x: nat, y: nat)
    requires Even(f) && x < f.params.width && y < f.params.height && InterleavedOf(f, mid)
    ensures Yuv(mid, x, y) == (ToY(RgbAt(f.planes, f.data, x, y)), ToU(Sample(f, x, y)), ToV(Sample(f, x, y)))
  {
    assert LumaRow(f, mid, y, false);
    assert InterleavedChromaRow(f, mid, y / 2);
    assert x / 2 < f.params.width / 2 && 2 * (x / 2) == x / 2 * 2 && 2 * (y / 2) == y / 2 * 2;
  }

  /** What a decoder finds for pixel (x, y): its own luma and the chroma of its block's even-even pixel. */
  lemma SampleYuv(f: Picture, mid: Picture, x: nat, y: nat)
    requires Even(f) && x < f.params.width && y < f.params.height
    requires PlanarOf(f, mid, false) || InterleavedOf(f, mid)
    ensures Yuv(mid, x, y) == (ToY(RgbAt(f.planes, f.data, x, y)), ToU(Sample(f, x, y)), ToV(Sample(f, x, y)))
  {
    if PlanarOf(f, mid, false) {
      PlanarYuv(f, mid, x, y, false);
    } else {
      InterleavedYuv(f, mid, x, y);
    }
  }

  /** What both round trips make of a pixel. */
  lemma Returned(f: Picture, mid: Picture, g: Picture, x: nat, y: nat)
    requires Even(f) && x < f.params.width && y < f.params.height
    requires (PlanarOf(f, mid, false) || InterleavedOf(f, mid)) && DecodedOf(mid, g)
    ensures RgbAt(g.planes, g.data, x, y)
         == Decode(ToY(RgbAt(f.planes, f.data, x, y)), ToU(Sample(f, x, y)), ToV(Sample(f, x, y)))
  {
    SampleYuv(f, mid, x, y);
    assert DecodedRow(mid, g, y);
  }

  lemma SampleOfSample(f: Picture, x: nat, y: nat)
    requires |f.planes| == MAX_PLANES
    ensures Sample(f, 2 * x, 2 * y) == RgbAt(f.planes, f.data, 2 * x, 2 * y)
  {
    assert 2 * x / 2 * 2 == 2 * x && 2 * y / 2 * 2 == 2 * y;
  }

  /** At every even-even pixel both 4:2:0 round trips change red and green by at most 2 and blue by at most 3. */
  lemma RoundTripAtSamples(f: Picture, mid: Picture, g: Picture, x: nat, y: nat)
    requires Even(f) && 2 * x < f.params.width && 2 * y < f.params.height
    requires (PlanarOf(f, mid, false) || InterleavedOf(f, mid)) && DecodedOf(mid, g)
    ensures Close(RgbAt(f.planes, f.data, 2 * x, 2 * y), RgbAt(g.planes, g.data, 2 * x, 2 * y))
  {
    SampleOfSample(f, x, y);
    Returned(f, mid, g, 2 * x, 2 * y);
    PixelRoundTrip(RgbAt(f.planes, f.data, 2 * x, 2 * y));
  }

  ghost predicate BlocksConstant(f: Picture)
    requires |f.planes| == MAX_PLANES
  {
    forall x: nat, y: nat | x < f.params.width && y < f.params.height ::
      RgbAt(f.planes, f.data, x, y) == RgbAt(f.planes, f.data, x / 2 * 2, y / 2 * 2)
  }

  /** And at every pixel if each 2x2 block has one colour. */
  lemma RoundTripOnBlocks(f: Picture, mid: Picture, g: Picture, x: nat, y: nat)
    requires Even(f) && x < f.params.width && y < f.params.height
    requires (PlanarOf(f, mid, false) || InterleavedOf(f, mid)) && DecodedOf(mid, g)
    requires BlocksConstant(f)
    ensures Close(RgbAt(f.planes, f.data, x, y), RgbAt(g.planes, g.data, x, y))
  {
    Returned(f, mid, g, x, y);
    PixelRoundTrip(RgbAt(f.planes, f.data, x, y));
  }

  ghost predicate AllGray(f: Picture)
    requires |f.planes| == MAX_PLANES
  {
    forall x: nat, y: nat | x < f.params.width && y < f.params.height :: Gray(RgbAt(f.planes, f.data, x, y))
  }

  lemma SampleInside(f: Picture, x: nat, y: nat)
    requires |f.planes| == MAX_PLANES && AllGray(f) && x < f.params.width && y < f.params.height
    ensures Gray(Sample(f, x, y))
  {
    var a, b := x / 2 * 2, y / 2 * 2;
    assert a <= x && b <= y;
  }

  /** A gray image comes back gray at every pixel, within 1. */
  lemma GrayRoundTrip(f: Picture, mid: Picture, g: Picture, x: nat, y: nat)
    requires Even(f) && x < f.params.width && y < f.params.height
    requires (PlanarOf(f, mid, false) || InterleavedOf(f, mid)) && DecodedOf(mid, g)
    requires AllGray(f)
    ensures var p, q := RgbAt(f.planes, f.data, x, y), RgbAt(g.planes, g.data, x, y); Gray(q) && Within(q.r, p.r, 1)
  {
    Returned(f, mid, g, x, y);
    SampleInside(f, x, y);
    GrayDecoded(RgbAt(f.planes, f.data, x, y), Sample(f, x, y));
  }

  lemma GrayDecoded(p: Rgb, s: Rgb)
    requires Gray(p) && Gray(s)
    ensures var q := Decode(ToY(p), ToU(s), ToV(s)); Gray(q) && Within(q.r, p.r, 1)
  {
    GrayStaysGray(p);
    GrayStaysGray(s);
  }

  /** The planar and the interleaved route give the same RGB picture. */
  lemma RoutesAgree(f: Picture, planar: Picture, inter: Picture, g: Picture, h: Picture, x: nat, y: nat)
    requires Even(f) && x < f.params.width && y < f.params.height
    requires PlanarOf(f, planar, false) && InterleavedOf(f, inter)
    requires DecodedOf(planar, g) && DecodedOf(inter, h)
    ensures RgbAt(g.planes, g.data, x, y) == RgbAt(h.planes, h.data, x, y)
  {
    hide ToY, ToU, ToV, Decode;
    SampleYuv(f, planar, x, y);
    SampleYuv(f, inter, x, y);
    assert DecodedRow(planar, g, y);
    assert DecodedRow(inter, h, y);
  }

  /** One picture is the other with red and blue exchanged. */
  ghost predicate Swapped(f: Picture, g: Picture)
    requires |f.planes| == |g.planes| == MAX_PLANES
  {
    SameSize(f, g) && forall x: nat, y: nat | x < f.params.width && y < f.params.height ::
      RgbAt(g.planes, g.data, x, y) == Swap(RgbAt(f.planes, f.data, x, y))
  }

  lemma SwappedColor(f: Picture, g: Picture, x: nat, y: nat)
    requires |f.planes| == |g.planes| == MAX_PLANES && Swapped(f, g) && x < f.params.width && y < f.params.height
    ensures SameSize(f, g) && ColorAt(g.planes, g.data, x, y, true) == ColorAt(f.planes, f.data, x, y, false)
  {
    assert RgbAt(g.planes, g.data, x, y) == Swap(RgbAt(f.planes, f.data, x, y));
  }

  lemma PlanarPlaneCount(f: Picture, g: Picture, bgr: bool)
    requires PlanarOf(f, g, bgr)
    ensures |f.planes| == |g.planes| == MAX_PLANES && SameSize(f, g)
  {
  }

  /** The channel-swapped picture, read as BGR888, encodes to the same visible YUV420P bytes. */
  lemma SwappedEncodesTheSame(f: Picture, swapped: Picture, g: Picture, h: Picture, x: nat, y: nat)
    requires Even(f) && PlanarOf(f, g, false) && PlanarOf(swapped, h, true) && Swapped(f, swapped)
    requires x < f.params.width && y < f.params.height
    ensures Yuv(g, x, y) == Yuv(h, x, y)
  {
    hide ToY, ToU, ToV, ColorAt, Yuv, PlanarOf, Swapped;
    PlanarPlaneCount(f, g, false);
    PlanarPlaneCount(swapped, h, true);
    assert x / 2 * 2 <= x && y / 2 * 2 <= y;
    SwappedColor(f, swapped, x, y);
    SwappedColor(f, swapped, x / 2 * 2, y / 2 * 2);
    PlanarYuv(f, g, x, y, false);
    PlanarYuv(swapped, h, x, y, true);
  }
}
