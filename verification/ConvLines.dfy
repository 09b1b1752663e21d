/** What the converters do to one line of pixels: their inner loops, over the bytes of the source
    and destination frame and the places where the line's planes start. */
module ConvLines {
  import opened Layout
  import opened Bt601
  import opened Pictures

  /** From `from` on, n bytes of a are those that want names. */
  ghost predicate Span(a: array<byte>, from: nat, n: nat, want: nat -> byte)
    requires from + n <= a.Length
    reads a
  {
    forall i | from <= i < from + n :: a[i] == want(i - from)
  }

  /** Only bytes of a at from, ..., from + n - 1 have changed. */
  twostate predicate OnlySpan(a: array<byte>, from: nat, n: nat)
    reads a
  {
    forall i: nat | i < a.Length :: a[i] != old(a[i]) ==> from <= i < from + n
  }

  method Put(a: array<byte>, from: nat, n: nat, b: byte, ghost want: nat -> byte)
    requires from + n < a.Length && b == want(n)
    requires Span(a, from, n, want)
    modifies a
    ensures Span(a, from, n + 1, want)
    ensures OnlySpan(a, from + n, 1)
  {
    a[from + n] := b;
  }

  // --- The result of a line, on the contents of the array

  function ByteAt(d: seq<byte>, from: nat, x: nat): byte {
    At(d, from + x)
  }

  /** A span, by position in the line. */
  ghost predicate Line(d: seq<byte>, from: nat, n: nat, want: nat -> byte) {
    forall x: nat | x < n :: ByteAt(d, from, x) == want(x)
  }

  lemma SpanIsLine(a: array<byte>, from: nat, n: nat, want: nat -> byte)
    requires from + n <= a.Length && Span(a, from, n, want)
    ensures Line(a[..], from, n, want)
  {
    forall x: nat | x < n ensures ByteAt(a[..], from, x) == want(x) {
      assert a[from + x] == want(from + x - from);
    }
  }

  /** e differs from d only in the three spans. */
  ghost predicate OnlyThere(d: seq<byte>, e: seq<byte>, f: nat, l: nat, g: nat, m: nat, h: nat, n: nat) {
    |e| == |d| && forall i: nat | i < |d| && e[i] != d[i] :: f <= i < f + l || g <= i < g + m || h <= i < h + n
  }

  // --- Encoding

  ghost function Lumas(s: seq<byte>, s0: nat, bgr: bool): nat -> byte {
    (x: nat) => ToY(ColorFrom(s, s0 + 3 * x, bgr))
  }

  /** The chroma of every other pixel. */
  ghost function Us(s: seq<byte>, s0: nat, bgr: bool): nat -> byte {
    (x: nat) => ToU(ColorFrom(s, s0 + 3 * (2 * x), bgr))
  }

  ghost function Vs(s: seq<byte>, s0: nat, bgr: bool): nat -> byte {
    (x: nat) => ToV(ColorFrom(s, s0 + 3 * (2 * x), bgr))
  }

  /** U and V of every other pixel in turn. */
  ghost function UVs(s: seq<byte>, s0: nat): nat -> byte {
    (x: nat) =>
      if x % 2 == 0 then ToU(ColorFrom(s, s0 + 3 * x, false)) else ToV(ColorFrom(s, s0 + 3 * (x - 1), false))
  }

  method Fetch(src: array<byte>, at: nat, bgr: bool) returns (p: Rgb)
    requires at + 3 <= src.Length
    ensures p == ColorFrom(src[..], at, bgr)
  {
    if bgr {
      p := Rgb(src[at + 2], src[at + 1], src[at]);
    } else {
      p := Rgb(src[at], src[at + 1], src[at + 2]);
    }
  }

  /** h is how many even numbers are below x. */
  lemma EvensBelow(x: nat, h: nat)
    requires 2 * h - 1 <= x <= 2 * h
    ensures if x % 2 == 0 then x == 2 * h && x / 2 == h else x + 1 == 2 * h
  {
  }

  /** At most l bytes from f on, m bytes from g on and n bytes from h on have changed. */
  twostate predicate OnlySpans(a: array<byte>, f: nat, l: nat, g: nat, m: nat, h: nat, n: nat)
    reads a
  {
    forall i: nat | i < a.Length && a[i] != old(a[i]) :: f <= i < f + l || g <= i < g + m || h <= i < h + n
  }

  /** A pixel between the sampled ones: a luma byte alone. Chroma spans behind it stay. */
  method EncodeLuma(src: array<byte>, s0: nat, dst: array<byte>, y0: nat, x: nat, bgr: bool,
                    ghost u0: nat, ghost us: nat -> byte, ghost m: nat,
                    ghost v0: nat, ghost vs: nat -> byte, ghost n: nat)
    requires src != dst && s0 + 3 * x + 3 <= src.Length
    requires y0 + x < u0 && u0 + m <= v0 && v0 + n <= dst.Length
    requires Span(dst, y0, x, Lumas(src[..], s0, bgr)) && Span(dst, u0, m, us) && Span(dst, v0, n, vs)
    modifies dst
    ensures Span(dst, y0, x + 1, Lumas(src[..], s0, bgr)) && Span(dst, u0, m, us) && Span(dst, v0, n, vs)
    ensures OnlySpan(dst, y0 + x, 1)
  {
    var p := Fetch(src, s0 + 3 * x, bgr);
    Put(dst, y0, x, ToY(p), Lumas(src[..], s0, bgr));
  }

  /** A luma byte and the two chroma bytes of its block. */
  method PutSample(dst: array<byte>, y0: nat, x: nat, u0: nat, v0: nat, n: nat, l: byte, u: byte, v: byte,
                   ghost lumas: nat -> byte, ghost us: nat -> byte, ghost vs: nat -> byte)
    requires y0 + x < u0 && u0 + n < v0 && v0 + n < dst.Length
    requires Span(dst, y0, x, lumas) && Span(dst, u0, n, us) && Span(dst, v0, n, vs)
    requires l == lumas(x) && u == us(n) && v == vs(n)
    modifies dst
    ensures Span(dst, y0, x + 1, lumas) && Span(dst, u0, n + 1, us) && Span(dst, v0, n + 1, vs)
    ensures OnlySpans(dst, y0 + x, 1, u0 + n, 1, v0 + n, 1)
  {
    dst[y0 + x] := l;
    dst[u0 + n] := u;
    dst[v0 + n] := v;
  }

  /** The pixel a block is sampled at. */
  method EncodeSample(src: array<byte>, s0: nat, dst: array<byte>, y0: nat, u0: nat, v0: nat, x: nat, bgr: bool)
    requires src != dst && x % 2 == 0 && s0 + 3 * x + 3 <= src.Length
    requires y0 + x < u0 && u0 + x / 2 < v0 && v0 + x / 2 < dst.Length
    requires Span(dst, y0, x, Lumas(src[..], s0, bgr))
    requires Span(dst, u0, x / 2, Us(src[..], s0, bgr)) && Span(dst, v0, x / 2, Vs(src[..], s0, bgr))
    modifies dst
    ensures Span(dst, y0, x + 1, Lumas(src[..], s0, bgr))
    ensures Span(dst, u0, x / 2 + 1, Us(src[..], s0, bgr)) && Span(dst, v0, x / 2 + 1, Vs(src[..], s0, bgr))
    ensures OnlySpans(dst, y0 + x, 1, u0 + x / 2, 1, v0 + x / 2, 1)
  {
    hide ToY, ToU, ToV, Span;
    var p := Fetch(src, s0 + 3 * x, bgr);
    assert 2 * (x / 2) == x;
    PutSample(dst, y0, x, u0, v0, x / 2, ToY(p), ToU(p), ToV(p),
              Lumas(src[..], s0, bgr), Us(src[..], s0, bgr), Vs(src[..], s0, bgr));
  }

  /** RGB888 or BGR888 to YUV420P: luma for every pixel; chroma for every other one on a sampled line. */
  method EncodePlanar(src: array<byte>, s0: nat, dst: array<byte>, y0: nat, u0: nat, v0: nat,
                      width: nat, sampled: bool, bgr: bool)
    requires src != dst && width % 2 == 0
    requires s0 + 3 * width <= src.Length
    requires y0 + width <= u0 && u0 + width / 2 <= v0 && v0 + width / 2 <= dst.Length
    modifies dst
    ensures Line(dst[..], y0, width, Lumas(src[..], s0, bgr))
    ensures sampled ==>
      Line(dst[..], u0, width / 2, Us(src[..], s0, bgr)) && Line(dst[..], v0, width / 2, Vs(src[..], s0, bgr))
    ensures var n := if sampled then width / 2 else 0; OnlyThere(old(dst[..]), dst[..], y0, width, u0, n, v0, n)
  {
    hide Lumas, Us, Vs;
    ghost var lumas, us, vs := Lumas(src[..], s0, bgr), Us(src[..], s0, bgr), Vs(src[..], s0, bgr);
    var x := 0;
    ghost var h, n := 0, 0;
    while x < width
      invariant 0 <= x <= width && 2 * h - 1 <= x <= 2 * h && n == if sampled then h else 0
      invariant Span(dst, y0, x, lumas) && Span(dst, u0, n, us) && Span(dst, v0, n, vs)
      invariant OnlySpans(dst, y0, x, u0, n, v0, n)
    {
      EvensBelow(x, h);
      if sampled && x % 2 == 0 {
        EncodeSample(src, s0, dst, y0, u0, v0, x, bgr);
        n := n + 1;
      } else {
        EncodeLuma(src, s0, dst, y0, x, bgr, u0, us, n, v0, vs, n);
      }
      h := if x % 2 == 0 then h + 1 else h;
      x := x + 1;
    }
    SpanIsLine(dst, y0, width, Lumas(src[..], s0, bgr));
    if sampled {
      SpanIsLine(dst, u0, width / 2, Us(src[..], s0, bgr));
      SpanIsLine(dst, v0, width / 2, Vs(src[..], s0, bgr));
    }
  }

  /** A luma byte and the chroma pair of its block. */
  method PutPair(dst: array<byte>, y0: nat, x: nat, uv0: nat, l: byte, u: byte, v: byte,
                 ghost lumas: nat -> byte, ghost uvs: nat -> byte)
    requires y0 + x < uv0 && uv0 + x + 1 < dst.Length
    requires Span(dst, y0, x, lumas) && Span(dst, uv0, x, uvs)
    requires l == lumas(x) && u == uvs(x) && v == uvs(x + 1)
    modifies dst
    ensures Span(dst, y0, x + 1, lumas) && Span(dst, uv0, x + 2, uvs)
    ensures OnlySpans(dst, y0 + x, 1, uv0 + x, 2, 0, 0)
  {
    dst[y0 + x] := l;
    dst[uv0 + x] := u;
    dst[uv0 + x + 1] := v;
  }

  lemma PairFromOnePixel(s: seq<byte>, s0: nat, x: nat)
    requires x % 2 == 0
    ensures UVs(s, s0)(x) == ToU(ColorFrom(s, s0 + 3 * x, false))
    ensures UVs(s, s0)(x + 1) == ToV(ColorFrom(s, s0 + 3 * x, false))
  {
    assert s0 + 3 * (x + 1 - 1) == s0 + 3 * x;
  }

  method EncodePair(src: array<byte>, s0: nat, dst: array<byte>, y0: nat, uv0: nat, x: nat)
    requires src != dst && x % 2 == 0
    requires s0 + 3 * x + 3 <= src.Length && y0 + x < uv0 && uv0 + x + 1 < dst.Length
    requires Span(dst, y0, x, Lumas(src[..], s0, false)) && Span(dst, uv0, x, UVs(src[..], s0))
    modifies dst
    ensures Span(dst, y0, x + 1, Lumas(src[..], s0, false)) && Span(dst, uv0, x + 2, UVs(src[..], s0))
    ensures OnlySpans(dst, y0 + x, 1, uv0 + x, 2, 0, 0)
  {
    var p := Fetch(src, s0 + 3 * x, false);
    PairFromOnePixel(src[..], s0, x);
    PutPair(dst, y0, x, uv0, ToY(p), ToU(p), ToV(p), Lumas(src[..], s0, false), UVs(src[..], s0));
  }

  /** RGB888 to NV12: chroma pairs go into one plane, U at even and V at odd places. */
  method EncodeInterleaved(src: array<byte>, s0: nat, dst: array<byte>, y0: nat, uv0: nat, width: nat, sampled: bool)
    requires src != dst && width % 2 == 0
    requires s0 + 3 * width <= src.Length
    requires y0 + width <= uv0 && uv0 + width <= dst.Length
    modifies dst
    ensures Line(dst[..], y0, width, Lumas(src[..], s0, false))
    ensures sampled ==> Line(dst[..], uv0, width, UVs(src[..], s0))
    ensures OnlyThere(old(dst[..]), dst[..], y0, width, uv0, if sampled then width else 0, 0, 0)
  {
    hide Lumas, UVs;
    ghost var lumas, uvs := Lumas(src[..], s0, false), UVs(src[..], s0);
    var x := 0;
    ghost var h, n := 0, 0;
    while x < width
      invariant 0 <= x <= width && 2 * h - 1 <= x <= 2 * h && n == if sampled then 2 * h else 0
      invariant Span(dst, y0, x, lumas) && Span(dst, uv0, n, uvs)
      invariant OnlySpans(dst, y0, x, uv0, n, 0, 0)
    {
      EvensBelow(x, h);
      if sampled && x % 2 == 0 {
        EncodePair(src, s0, dst, y0, uv0, x);
        n := n + 2;
      } else {
        EncodeLuma(src, s0, dst, y0, x, false, uv0, uvs, n, dst.Length, uvs, 0);
      }
      h := if x % 2 == 0 then h + 1 else h;
      x := x + 1;
    }
    SpanIsLine(dst, y0, width, Lumas(src[..], s0, false));
    if sampled {
      SpanIsLine(dst, uv0, width, UVs(src[..], s0));
    }
  }

  // --- Decoding

  ghost function Channel(p: Rgb, i: nat): byte {
    if i == 0 then p.r else if i == 1 then p.g else p.b
  }

  /** The bytes of a line of pixels. */
  ghost function Bytes(colors: nat -> Rgb): nat -> byte {
    (i: nat) => Channel(colors(i / 3), i % 3)
  }

  method PutPixel(a: array<byte>, from: nat, n: nat, p: Rgb, ghost colors: nat -> Rgb)
    requires from + 3 * n + 3 <= a.Length && p == colors(n)
    requires Span(a, from, 3 * n, Bytes(colors))
    modifies a
    ensures Span(a, from, 3 * n + 3, Bytes(colors))
    ensures OnlySpan(a, from + 3 * n, 3)
  {
    ghost var want := Bytes(colors);
    assert (3 * n + 1) / 3 == n && (3 * n + 2) / 3 == n;
    Put(a, from, 3 * n, p.r, want);
    Put(a, from, 3 * n + 1, p.g, want);
    Put(a, from, 3 * n + 2, p.b, want);
  }

  ghost function PlanarColors(s: seq<byte>, y0: nat, u0: nat, v0: nat): nat -> Rgb {
    (x: nat) => Decode(At(s, y0 + x), At(s, u0 + x / 2), At(s, v0 + x / 2))
  }

  ghost function InterleavedColors(s: seq<byte>, y0: nat, uv0: nat): nat -> Rgb {
    (x: nat) => Decode(At(s, y0 + x), At(s, uv0 + x / 2 * 2), At(s, uv0 + (x / 2 * 2 + 1)))
  }

  ghost function PackedColors(s: seq<byte>, s0: nat): nat -> Rgb {
    (x: nat) => Decode(At(s, s0 + 2 * x), At(s, s0 + (x / 2 * 4 + 1)), At(s, s0 + (x / 2 * 4 + 3)))
  }

  ghost function Grays(s: seq<byte>, s0: nat): nat -> Rgb {
    (x: nat) => Rgb(At(s, s0 + x), At(s, s0 + x), At(s, s0 + x))
  }

  /** YUV420P to RGB888: two pixels share a chroma sample of each plane. */
  method DecodePlanar(src: array<byte>, y0: nat, u0: nat, v0: nat, dst: array<byte>, d0: nat, width: nat)
    requires src != dst && width % 2 == 0 && d0 + 3 * width <= dst.Length
    requires y0 + width <= src.Length && u0 + width / 2 <= src.Length && v0 + width / 2 <= src.Length
    modifies dst
    ensures Line(dst[..], d0, 3 * width, Bytes(PlanarColors(src[..], y0, u0, v0)))
    ensures OnlyThere(old(dst[..]), dst[..], d0, 3 * width, 0, 0, 0, 0)
  {
    ghost var colors := PlanarColors(src[..], y0, u0, v0);
    var x := 0;
    while x < width
      invariant 0 <= x <= width
      invariant Span(dst, d0, 3 * x, Bytes(colors))
      invariant OnlySpan(dst, d0, 3 * width)
    {
      PutPixel(dst, d0, x, Decode(src[y0 + x], src[u0 + x / 2], src[v0 + x / 2]), colors);
      x := x + 1;
    }
    SpanIsLine(dst, d0, 3 * width, Bytes(PlanarColors(src[..], y0, u0, v0)));
  }

  /** NV12 to RGB888: the chroma pair starts at the even place at or before x. */
  method DecodeInterleaved(src: array<byte>, y0: nat, uv0: nat, dst: array<byte>, d0: nat, width: nat)
    requires src != dst && width % 2 == 0 && d0 + 3 * width <= dst.Length
    requires y0 + width <= src.Length && uv0 + width <= src.Length
    modifies dst
    ensures Line(dst[..], d0, 3 * width, Bytes(InterleavedColors(src[..], y0, uv0)))
    ensures OnlyThere(old(dst[..]), dst[..], d0, 3 * width, 0, 0, 0, 0)
  {
    ghost var colors := InterleavedColors(src[..], y0, uv0);
    var x := 0;
    while x < width
      invariant 0 <= x <= width
      invariant Span(dst, d0, 3 * x, Bytes(colors))
      invariant OnlySpan(dst, d0, 3 * width)
    {
      var at := x / 2 * 2;
      PutPixel(dst, d0, x, Decode(src[y0 + x], src[uv0 + at], src[uv0 + (at + 1)]), colors);
      x := x + 1;
    }
    SpanIsLine(dst, d0, 3 * width, Bytes(InterleavedColors(src[..], y0, uv0)));
  }

  lemma PairSharesChroma(s: seq<byte>, s0: nat, x: nat)
    requires x % 2 == 0
    ensures PackedColors(s, s0)(x) == Decode(At(s, s0 + 2 * x), At(s, s0 + (2 * x + 1)), At(s, s0 + (2 * x + 3)))
    ensures PackedColors(s, s0)(x + 1)
            == Decode(At(s, s0 + (2 * x + 2)), At(s, s0 + (2 * x + 1)), At(s, s0 + (2 * x + 3)))
  {
    assert x / 2 * 4 == 2 * x && (x + 1) / 2 == x / 2;
  }

  /** Four bytes make two pixels. */
  method DecodePair(src: array<byte>, s0: nat, dst: array<byte>, d0: nat, x: nat)
    requires src != dst && x % 2 == 0 && d0 + 3 * x + 6 <= dst.Length && s0 + 2 * x + 4 <= src.Length
    requires Span(dst, d0, 3 * x, Bytes(PackedColors(src[..], s0)))
    modifies dst
    ensures Span(dst, d0, 3 * x + 6, Bytes(PackedColors(src[..], s0)))
    ensures OnlySpan(dst, d0 + 3 * x, 6)
  {
    ghost var colors := PackedColors(src[..], s0);
    var at := s0 + 2 * x;
    var u, v := src[at + 1], src[at + 3];
    var p, q := Decode(src[at], u, v), Decode(src[at + 2], u, v);
    PairSharesChroma(src[..], s0, x);
    assert p == colors(x) && q == colors(x + 1);
    PutPixel(dst, d0, x, p, colors);
    PutPixel(dst, d0, x + 1, q, colors);
  }

  /** YUYV to RGB888: two pixels per round. */
  method DecodePacked(src: array<byte>, s0: nat, dst: array<byte>, d0: nat, width: nat)
    requires src != dst && width % 2 == 0 && d0 + 3 * width <= dst.Length && s0 + 2 * width <= src.Length
    modifies dst
    ensures Line(dst[..], d0, 3 * width, Bytes(PackedColors(src[..], s0)))
    ensures OnlyThere(old(dst[..]), dst[..], d0, 3 * width, 0, 0, 0, 0)
  {
    var x := 0;
    while x < width
      invariant 0 <= x <= width && x % 2 == 0
      invariant Span(dst, d0, 3 * x, Bytes(PackedColors(src[..], s0)))
      invariant OnlySpan(dst, d0, 3 * width)
    {
      DecodePair(src, s0, dst, d0, x);
      x := x + 2;
    }
    SpanIsLine(dst, d0, 3 * width, Bytes(PackedColors(src[..], s0)));
  }

  /** RAW8 to RGB888: the sensor value three times. */
  method Spread(src: array<byte>, s0: nat, dst: array<byte>, d0: nat, width: nat)
    requires src != dst && s0 + width <= src.Length && d0 + 3 * width <= dst.Length
    modifies dst
    ensures Line(dst[..], d0, 3 * width, Bytes(Grays(src[..], s0)))
    ensures OnlyThere(old(dst[..]), dst[..], d0, 3 * width, 0, 0, 0, 0)
  {
    ghost var colors := Grays(src[..], s0);
    var x := 0;
    while x < width
      invariant 0 <= x <= width
      invariant Span(dst, d0, 3 * x, Bytes(colors))
      invariant OnlySpan(dst, d0, 3 * width)
    {
      var pixel := src[s0 + x];
      PutPixel(dst, d0, x, Rgb(pixel, pixel, pixel), colors);
      x := x + 1;
    }
    SpanIsLine(dst, d0, 3 * width, Bytes(Grays(src[..], s0)));
  }

  ghost function Copies(s: seq<byte>, s0: nat): nat -> byte {
    (x: nat) => At(s, s0 + x)
  }

  /** RAW8 to YUV420P: the sensor value is the luma. */
  method Copy(src: array<byte>, s0: nat, dst: array<byte>, y0: nat, width: nat)
    requires src != dst && s0 + width <= src.Length && y0 + width <= dst.Length
    modifies dst
    ensures Line(dst[..], y0, width, Copies(src[..], s0))
    ensures OnlyThere(old(dst[..]), dst[..], y0, width, 0, 0, 0, 0)
  {
    ghost var want := Copies(src[..], s0);
    var x := 0;
    while x < width
      invariant 0 <= x <= width
      invariant Span(dst, y0, x, want)
      invariant OnlySpan(dst, y0, width)
    {
      Put(dst, y0, x, src[s0 + x], want);
      x := x + 1;
    }
    SpanIsLine(dst, y0, width, Copies(src[..], s0));
  }
}
