/** Encoding a frame to 4:2:0 and decoding it again, on framebuffers and through conversion contexts. */
module RoundTrips {
  import opened Options
  import opened Layout
  import opened Bt601
  import opened Frames
  import opened Pictures
  import opened ConvRows
  import opened Conversion

  /** The formats of two frames say which conversion lies between them. */
  lemma WhichConversion(f: Picture, g: Picture)
    requires ConversionOf(f, g)
    ensures f.params.format == RGB888 && g.params.format == YUV420P ==> PlanarOf(f, g, false)
    ensures f.params.format == BGR888 && g.params.format == YUV420P ==> PlanarOf(f, g, true)
    ensures f.params.format == RGB888 && g.params.format == NV12 ==> InterleavedOf(f, g)
    ensures f.params.format in {YUV420P, NV12, YUYV} && g.params.format == RGB888 ==> DecodedOf(f, g)
    ensures f.params.format == RAW8 && g.params.format == RGB888 ==> GrayRgbOf(f, g)
    ensures f.params.format == RAW8 && g.params.format == YUV420P ==> GrayPlanarOf(f, g)
  {
  }

  /** g is what a 4:2:0 round trip makes of f. */
  ghost predicate CameBack(f: Picture, g: Picture)
    requires |f.planes| == |g.planes| == MAX_PLANES
  {
    && (forall x: nat, y: nat | 2 * x < f.params.width && 2 * y < f.params.height ::
          Close(RgbAt(f.planes, f.data, 2 * x, 2 * y), RgbAt(g.planes, g.data, 2 * x, 2 * y)))
    && (BlocksConstant(f) ==> forall x: nat, y: nat | x < f.params.width && y < f.params.height ::
          Close(RgbAt(f.planes, f.data, x, y), RgbAt(g.planes, g.data, x, y)))
    && (AllGray(f) ==> forall x: nat, y: nat | x < f.params.width && y < f.params.height ::
          GrayWithin(RgbAt(f.planes, f.data, x, y), RgbAt(g.planes, g.data, x, y)))
  }

  predicate GrayWithin(p: Rgb, q: Rgb) {
    Gray(q) && Within(q.r, p.r, 1)
  }

  lemma BothWays(f: Picture, mid: Picture, g: Picture)
    requires Even(f) && f.params.format == RGB888 && mid.params.format in {YUV420P, NV12} && g.params.format == RGB888
    requires ConversionOf(f, mid) && ConversionOf(mid, g)
    ensures |f.planes| == |g.planes| == MAX_PLANES && CameBack(f, g)
  {
    hide ConversionOf, PlanarOf, InterleavedOf, DecodedOf, BlocksConstant, AllGray, RgbAt, Close, Gray;
    WhichConversion(f, mid);
    WhichConversion(mid, g);
    EnoughPlanes(mid, g);
    EnoughPlanes(f, mid);
    forall x: nat, y: nat | 2 * x < f.params.width && 2 * y < f.params.height
      ensures Close(RgbAt(f.planes, f.data, 2 * x, 2 * y), RgbAt(g.planes, g.data, 2 * x, 2 * y))
    {
      RoundTripAtSamples(f, mid, g, x, y);
    }
    forall x: nat, y: nat | x < f.params.width && y < f.params.height
      ensures BlocksConstant(f) ==> Close(RgbAt(f.planes, f.data, x, y), RgbAt(g.planes, g.data, x, y))
      ensures AllGray(f) ==> GrayWithin(RgbAt(f.planes, f.data, x, y), RgbAt(g.planes, g.data, x, y))
    {
      if BlocksConstant(f) {
        RoundTripOnBlocks(f, mid, g, x, y);
      }
      if AllGray(f) {
        GrayRoundTrip(f, mid, g, x, y);
      }
    }
  }

  lemma EnoughPlanes(f: Picture, g: Picture)
    requires ConversionOf(f, g)
    ensures |f.planes| == |g.planes| == MAX_PLANES
  {
  }

  lemma FourPlanes(p: Params)
    requires PlanesOf(p).Some?
    ensures |PlanesOf(p).value| == MAX_PLANES
  {
  }

  /** A context for the formats of two frames of one size, and the conversion of one into the other. */
  method Convert(src: Framebuffer, dst: Framebuffer) returns (err: VfErr)
    requires src.Allocated() && dst.Allocated() && src.data != dst.data
    requires src.params == dst.params.(format := src.params.format) && Even(Shot(src))
    modifies dst.data
    ensures err == if Supported(src.params.format, dst.params.format) then SUCCESS else CONV_INIT_ERR
    ensures src.data != null && dst.data != null
    ensures if err == SUCCESS then ConversionOf(Shot(src), Shot(dst)) else dst.data[..] == old(dst.data[..])
  {
    hide ConversionOf, PlanesOf, TotalSize, Supported;
    var ctx := new Context();
    err := ctx.Init(src.params.format, dst.params.format);
    if err == SUCCESS {
      err := ctx.Process(src, dst);
    }
  }

  /** There and back, with a context for each way. The first refuses any format in between but the two 4:2:0
      ones with a decoder; otherwise dst is src, up to what a 4:2:0 format loses. */
  method ThereAndBack(src: Framebuffer, mid: Framebuffer, dst: Framebuffer) returns (err: VfErr)
    requires src.Allocated() && mid.Allocated() && dst.Allocated()
    requires src.data != mid.data && mid.data != dst.data && src.data != dst.data
    requires src.params.format == RGB888 && dst.params == src.params
    requires mid.params == src.params.(format := mid.params.format) && Even(Shot(src))
    modifies mid.data, dst.data
    ensures err == if mid.params.format in {YUV420P, NV12} then SUCCESS else CONV_INIT_ERR
    ensures src.data != null && dst.data != null && |src.planes| == |dst.planes| == MAX_PLANES
    ensures if err == SUCCESS then CameBack(Shot(src), Shot(dst)) else dst.data[..] == old(dst.data[..])
  {
    hide ConversionOf, CameBack, PlanesOf, TotalSize;
    FourPlanes(src.params);
    err := Convert(src, mid);
    if err != SUCCESS {
      return;
    }
    ghost var f, g := Shot(src), Shot(mid);
    err := Convert(mid, dst);
    assert f == Shot(src) && g == Shot(mid);
    BothWays(f, g, Shot(dst));
  }
}
