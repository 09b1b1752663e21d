/** Plane layout of a frame: which bytes of a framebuffer belong to which line of which plane. */
module Layout {
  import opened Options

  type byte = x: int | 0 <= x < 256

  const STRIDE_ALIGN: nat := 16
  const MAX_PLANES: nat := 4

  datatype PixelFmt = UNKNOWN | RGB888 | BGR888 | RGBA8888 | YUV420P | NV12 | RAW8 | YUYV | MJPEG | LAST

  datatype Params = Params(width: nat, height: nat, format: PixelFmt)

  datatype Plane = Plane(width: nat, height: nat, lineSize: nat, stride: nat, size: nat)

  const NO_PLANE := Plane(0, 0, 0, 0, 0)

  /** Bits per pixel of the packed formats, 0 for the others. */
  function Bpp(format: PixelFmt): nat {
    match format
    case RAW8 => 8
    case YUYV => 16
    case RGB888 => 24
    case BGR888 => 24
    case RGBA8888 => 32
    case _ => 0
  }

  /** ALIGN_SIZE with its power-of-two mask written as arithmetic. */
  function Align(x: nat): nat {
    (x + (STRIDE_ALIGN - 1)) / STRIDE_ALIGN * STRIDE_ALIGN
  }

  function PlaneOf(width: nat, height: nat, lineSize: nat): Plane {
    Plane(width, height, lineSize, Align(lineSize), Align(lineSize) * height)
  }

  /** The four plane entries init_planes leaves, or None for a format it refuses. */
  function PlanesOf(p: Params): Option<seq<Plane>> {
    match p.format
    case YUV420P =>
      var chroma := PlaneOf(p.width / 2, p.height / 2, p.width / 2);
      Some([PlaneOf(p.width, p.height, p.width), chroma, chroma, NO_PLANE])
    case NV12 =>
      Some([PlaneOf(p.width, p.height, p.width), PlaneOf(p.width, p.height / 2, p.width), NO_PLANE, NO_PLANE])
    case UNKNOWN => None
    case MJPEG => None
    case LAST => None
    case _ => Some([PlaneOf(p.width, p.height, p.width * Bpp(p.format) / 8), NO_PLANE, NO_PLANE, NO_PLANE])
  }

  /** Where plane k starts. */
  function Base(planes: seq<Plane>, k: nat): nat
    requires k <= |planes|
  {
    if k == 0 then 0 else Base(planes, k - 1) + planes[k - 1].size
  }

  function TotalSize(planes: seq<Plane>): nat {
    Base(planes, |planes|)
  }

  /** How many planes the file loops visit: they stop at the first empty one. */
  function Used(planes: seq<Plane>): (u: nat)
    ensures u <= |planes|
    ensures forall k :: 0 <= k < u ==> planes[k].size > 0
  {
    if planes == [] || planes[0].size == 0 then 0 else 1 + Used(planes[1..])
  }

  function LineStart(planes: seq<Plane>, k: nat, j: nat): nat
    requires k < |planes|
  {
    Base(planes, k) + j * planes[k].stride
  }

  predicate InLine(planes: seq<Plane>, k: nat, j: nat, i: nat)
    requires k < |planes|
  {
    LineStart(planes, k, j) <= i < LineStart(planes, k, j) + planes[k].lineSize
  }

  /** Byte i is visible: part of a line of some plane, not of the padding behind one. */
  ghost predicate Visible(planes: seq<Plane>, i: nat) {
    exists k: nat, j: nat :: k < |planes| && j < planes[k].height && InLine(planes, k, j, i)
  }

  /** Byte i is part of a line that goes into a file. */
  ghost predicate Stored(planes: seq<Plane>, i: nat) {
    exists k: nat, j: nat :: k < Used(planes) && j < planes[k].height && InLine(planes, k, j, i)
  }

  predicate Sound(p: Plane) {
    p.size == p.stride * p.height && p.lineSize <= p.stride && (p.size > 0 ==> p.lineSize > 0)
  }

  ghost predicate AllSound(planes: seq<Plane>) {
    forall k :: 0 <= k < |planes| ==> Sound(planes[k])
  }

  // --- What the layout guarantees

  /** Rounding gives the least multiple of 16 that covers the line. */
  lemma AlignIsLeast(x: nat, y: nat)
    requires y >= x && y % 16 == 0
    ensures Align(x) % 16 == 0 && x <= Align(x) <= y
  {
  }

  /** Bit i of a number. */
  function Bit(n: nat, i: nat): bool {
    if i == 0 then n % 2 == 1 else Bit(n / 2, i - 1)
  }

  /** The mask of ALIGN_SIZE, bit by bit: those of x + 15, with the lowest four cleared. */
  lemma {:induction false} AlignMask(x: nat, i: nat)
    ensures Bit(Align(x), i) == (i >= 4 && Bit(x + 15, i))
  {
    hide Bit, Align;
    RoundedWord(x);
    LowBits(Align(x), i);
    LowBits(x + 15, i);
  }

  lemma RoundedWord(x: nat)
    ensures Align(x) % 16 == 0 && Align(x) / 16 == (x + 15) / 16
  {
  }

  lemma {:induction false} LowBits(n: nat, i: nat)
    ensures i >= 4 ==> Bit(n, i) == Bit(n / 16, i - 4)
    ensures i < 4 && n % 16 == 0 ==> !Bit(n, i)
  {
    hide Bit;
    HalfBit(n, i);
    if i >= 1 {
      HalfBit(n / 2, i - 1);
    }
    if i >= 2 {
      HalfBit(n / 2 / 2, i - 2);
    }
    if i >= 3 {
      HalfBit(n / 2 / 2 / 2, i - 3);
    }
    assert n / 2 / 2 / 2 / 2 == n / 16;
  }

  lemma {:induction false} HalfBit(n: nat, i: nat)
    ensures if i == 0 then Bit(n, i) == (n % 2 == 1) else Bit(n, i) == Bit(n / 2, i - 1)
  {
  }

  /** Every plane of every frame has lines a multiple of 16 bytes apart, and less than 16 bytes of padding
      behind each. */
  lemma StrideIsLeast(p: Params, k: nat)
    requires PlanesOf(p).Some? && k < |PlanesOf(p).value|
    ensures var q := PlanesOf(p).value[k]; q.stride % 16 == 0 && q.lineSize <= q.stride < q.lineSize + 16
  {
    hide PlaneOf;
    PlaneStride(p.width, p.height, p.width);
    PlaneStride(p.width / 2, p.height / 2, p.width / 2);
    PlaneStride(p.width, p.height / 2, p.width);
    PlaneStride(p.width, p.height, p.width * Bpp(p.format) / 8);
  }

  lemma PlaneStride(width: nat, height: nat, lineSize: nat)
    ensures var q := PlaneOf(width, height, lineSize);
            q.stride % 16 == 0 && q.lineSize <= q.stride < q.lineSize + 16
  {
    AlignCovers(lineSize);
  }

  /** Pixels and visible bytes of a line, and lines, of each plane. */
  function LineTable(p: Params): seq<(nat, nat, nat)> {
    if PlanesOf(p).None? then []
    else
      var planes := PlanesOf(p).value;
      seq(|planes|, k requires 0 <= k < |planes| => (planes[k].width, planes[k].lineSize, planes[k].height))
  }

  /** The seven formats a frame may have, and the planes of each. */
  lemma LinesOf(p: Params)
    ensures PlanesOf(p).Some? <==> p.format in {RGB888, BGR888, RGBA8888, YUV420P, NV12, RAW8, YUYV}
    ensures var (w, h, none) := (p.width, p.height, (0, 0, 0));
            && (p.format == RAW8 ==> LineTable(p) == [(w, w, h), none, none, none])
            && (p.format == YUYV ==> LineTable(p) == [(w, 2 * w, h), none, none, none])
            && (p.format == RGB888 ==> LineTable(p) == [(w, 3 * w, h), none, none, none])
            && (p.format == BGR888 ==> LineTable(p) == [(w, 3 * w, h), none, none, none])
            && (p.format == RGBA8888 ==> LineTable(p) == [(w, 4 * w, h), none, none, none])
            && (p.format == YUV420P ==>
                  LineTable(p) == [(w, w, h), (w / 2, w / 2, h / 2), (w / 2, w / 2, h / 2), none])
            && (p.format == NV12 ==> LineTable(p) == [(w, w, h), (w, w, h / 2), none, none])
  {
  }

  lemma PlanesSound(p: Params)
    requires PlanesOf(p).Some?
    ensures |PlanesOf(p).value| == MAX_PLANES && AllSound(PlanesOf(p).value)
  {
    hide Align, PlaneOf, Sound;
    PlaneSound(p.width, p.height, p.width);
    PlaneSound(p.width / 2, p.height / 2, p.width / 2);
    PlaneSound(p.width, p.height / 2, p.width);
    PlaneSound(p.width, p.height, p.width * Bpp(p.format) / 8);
    NoPlaneSound();
  }

  lemma PlaneSound(width: nat, height: nat, lineSize: nat)
    ensures Sound(PlaneOf(width, height, lineSize))
  {
    AlignCovers(lineSize);
    if lineSize == 0 {
      assert Align(lineSize) == 0;
    }
  }

  lemma NoPlaneSound()
    ensures Sound(NO_PLANE)
  {
  }

  lemma AlignCovers(x: nat)
    ensures x <= Align(x) < x + STRIDE_ALIGN
  {
  }

  /** No plane behind the first empty one holds anything, so the file loops stop too early for no byte. */
  lemma NothingBehind(p: Params, k: nat)
    requires PlanesOf(p).Some? && Used(PlanesOf(p).value) <= k < MAX_PLANES
    ensures PlanesOf(p).value[k].size == 0
  {
    var planes := PlanesOf(p).value;
    UsedEnds(planes);
    if planes[0].size == 0 {
      EmptyAll(p);
    }
  }

  /** The loops stop at an empty plane or at the end. */
  lemma {:induction false} UsedEnds(planes: seq<Plane>)
    ensures Used(planes) < |planes| ==> planes[Used(planes)].size == 0
  {
    if planes != [] && planes[0].size != 0 {
      UsedEnds(planes[1..]);
    }
  }

  lemma EmptyAll(p: Params)
    requires PlanesOf(p).Some? && PlanesOf(p).value[0].size == 0
    ensures forall k | 0 <= k < MAX_PLANES :: PlanesOf(p).value[k].size == 0
  {
    NoProduct(Align(p.width), p.height);
    AlignCovers(p.width);
  }

  lemma NoProduct(a: nat, b: nat)
    requires a * b == 0
    ensures a == 0 || b == 0
  {
  }

  /** Every visible byte of a frame goes into its file, for every format and size. */
  lemma VisibleIsStored(p: Params, i: nat)
    requires PlanesOf(p).Some?
    ensures Visible(PlanesOf(p).value, i) <==> Stored(PlanesOf(p).value, i)
  {
    var planes := PlanesOf(p).value;
    PlanesSound(p);
    if Visible(planes, i) {
      var k: nat, j: nat :| k < |planes| && j < planes[k].height && InLine(planes, k, j, i);
      LineHasSize(planes[k]);
      if Used(planes) <= k {
        NothingBehind(p, k);
      }
    }
  }

  lemma LineHasSize(p: Plane)
    requires Sound(p) && p.height > 0 && p.lineSize > 0
    ensures p.size > 0
  {
    assert p.stride * p.height >= p.height;
  }

  lemma {:induction false} BaseMonotone(planes: seq<Plane>, k: nat, l: nat)
    requires k <= l <= |planes|
    ensures Base(planes, k) <= Base(planes, l)
    decreases l - k
  {
    if k < l {
      BaseMonotone(planes, k, l - 1);
    }
  }

  lemma RowsApart(stride: nat, j: nat, l: nat)
    requires j < l
    ensures j * stride + stride <= l * stride
  {
    Distribute(j + 1, l - j - 1, stride);
    Distribute(j, 1, stride);
  }

  lemma Distribute(a: nat, b: nat, c: nat)
    ensures (a + b) * c == a * c + b * c
  {
  }

  /** Every line lies inside its plane, and its plane inside the frame. */
  lemma LineInPlane(planes: seq<Plane>, k: nat, j: nat)
    requires AllSound(planes) && k < |planes| && j < planes[k].height
    ensures LineStart(planes, k, j) + planes[k].stride <= Base(planes, k + 1) <= TotalSize(planes)
  {
    var p := planes[k];
    if j + 1 < p.height {
      RowsApart(p.stride, j, p.height - 1);
    }
    assert p.height * p.stride == (p.height - 1) * p.stride + p.stride;
    BaseMonotone(planes, k + 1, |planes|);
  }

  predicate Before(k: nat, j: nat, l: nat, m: nat) {
    k < l || (k == l && j < m)
  }

  lemma LinesOrdered(planes: seq<Plane>, k: nat, j: nat, l: nat, m: nat)
    requires AllSound(planes) && k < |planes| && l < |planes| && j < planes[k].height && m < planes[l].height
    requires Before(k, j, l, m)
    ensures LineStart(planes, k, j) + planes[k].stride <= LineStart(planes, l, m)
  {
    if k < l {
      LineInPlane(planes, k, j);
      BaseMonotone(planes, k + 1, l);
      assert m * planes[l].stride >= 0;
    } else {
      RowsApart(planes[k].stride, j, m);
    }
  }

  /** Lines do not overlap: a byte belongs to at most one line of at most one plane. */
  lemma LinesDisjoint(planes: seq<Plane>, k: nat, j: nat, l: nat, m: nat, i: nat)
    requires AllSound(planes) && k < |planes| && l < |planes| && j < planes[k].height && m < planes[l].height
    ensures InLine(planes, k, j, i) && InLine(planes, l, m, i) ==> k == l && j == m
  {
    if Before(k, j, l, m) {
      LinesOrdered(planes, k, j, l, m);
    } else if Before(l, m, k, j) {
      LinesOrdered(planes, l, m, k, j);
    }
  }
}
