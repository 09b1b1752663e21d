/** The integer form of section 2.5 of Recommendation ITU-R BT.601, one pixel at a time. A right
    shift by 8 is division by 256 rounding down, also for negative sums. */
module Bt601 {
  import opened Layout

  datatype Rgb = Rgb(r: byte, g: byte, b: byte)

  function Clip(x: int): byte {
    if x < 0 then 0 else if x > 255 then 255 else x
  }

  function LumaSum(p: Rgb): int { (66 * p.r + 129 * p.g + 25 * p.b + 128) / 256 + 16 }
  function USum(p: Rgb): int { (-38 * p.r - 74 * p.g + 112 * p.b + 128) / 256 + 128 }
  function VSum(p: Rgb): int { (112 * p.r - 94 * p.g - 18 * p.b + 128) / 256 + 128 }

  function ToY(p: Rgb): byte { Clip(LumaSum(p)) }
  function ToU(p: Rgb): byte { Clip(USum(p)) }
  function ToV(p: Rgb): byte { Clip(VSum(p)) }

  function YuvToR(c: int, e: int): byte { Clip((298 * c + 409 * e + 128) / 256) }
  function YuvToG(c: int, d: int, e: int): byte { Clip((298 * c - 100 * d - 208 * e + 128) / 256) }
  function YuvToB(c: int, d: int): byte { Clip((298 * c + 516 * d + 128) / 256) }

  function Decode(y: byte, u: byte, v: byte): Rgb {
    var c, d, e := y as int - 16, u as int - 128, v as int - 128;
    Rgb(YuvToR(c, e), YuvToG(c, d, e), YuvToB(c, d))
  }

  function Swap(p: Rgb): Rgb {
    Rgb(p.b, p.g, p.r)
  }

  /** The clips of the encoder never fire: luma stays in 16..235 and chroma in 16..240. */
  lemma EncodeNeverClips(p: Rgb)
    ensures 16 <= LumaSum(p) <= 235 && 16 <= USum(p) <= 240 && 16 <= VSum(p) <= 240
    ensures ToY(p) == LumaSum(p) && ToU(p) == USum(p) && ToV(p) == VSum(p)
  {
  }

  /** Clipping gives the byte nearest to a sum. */
  lemma ClipNearest(x: int, b: byte)
    ensures Distance(Clip(x), x) <= Distance(b, x)
  {
  }

  function Distance(a: int, b: int): nat {
    if a < b then b - a else a - b
  }

  /** a is s / 256 rounded, halves up. */
  predicate Rounds(a: int, s: int) {
    -128 <= s - 256 * a <= 127
  }

  /** The samples are weighted sums of the channels in 256ths, rounded. */
  lemma EncodeRounds(p: Rgb)
    ensures Rounds(ToY(p) - 16, 66 * p.r + 129 * p.g + 25 * p.b)
    ensures Rounds(ToU(p) - 128, 112 * p.b - 74 * p.g - 38 * p.r)
    ensures Rounds(ToV(p) - 128, 112 * p.r - 94 * p.g - 18 * p.b)
  {
    EncodeNeverClips(p);
  }

  /** No byte is nearer to s / 256, halves counting as nearer to the byte above. */
  ghost predicate NearestByte(a: byte, s: int) {
    forall b: byte :: Distance(512 * a, 2 * s + 1) <= Distance(512 * b, 2 * s + 1)
  }

  /** The channels are the bytes nearest to their sums in 256ths, for all bytes. */
  lemma DecodeRounds(y: byte, u: byte, v: byte)
    ensures var c, d, e := y as int - 16, u as int - 128, v as int - 128;
            var q := Decode(y, u, v);
            && NearestByte(q.r, 298 * c + 409 * e)
            && NearestByte(q.g, 298 * c - 100 * d - 208 * e)
            && NearestByte(q.b, 298 * c + 516 * d)
  {
    hide NearestByte, Clip;
    var c, d, e := y as int - 16, u as int - 128, v as int - 128;
    ClipIsNearest(298 * c + 409 * e);
    ClipIsNearest(298 * c - 100 * d - 208 * e);
    ClipIsNearest(298 * c + 516 * d);
  }

  lemma ClipIsNearest(s: int)
    ensures NearestByte(Clip((s + 128) / 256), s)
  {
    var x := (s + 128) / 256;
    assert 256 * x <= s + 128 < 256 * x + 256;
  }

  // --- Against the standard. Luma is 16 plus 219 times the weighted mean of the channels; the two
  //     colour differences, divided by 1.772 and 1.402, are scaled by 224 and centred on 128.

  function Mean(p: Rgb): real {
    (0.299 * p.r as real + 0.587 * p.g as real + 0.114 * p.b as real) / 255.0
  }

  predicate Near(a: int, x: real) {
    -1.0 < a as real - x < 1.0
  }

  /** Every encoded sample is less than 1 away from the standard's value. */
  lemma EncodeNearStandard(p: Rgb)
    ensures Near(ToY(p), 16.0 + 219.0 * Mean(p))
    ensures Near(ToU(p), 128.0 + 224.0 / 1.772 * (p.b as real / 255.0 - Mean(p)))
    ensures Near(ToV(p), 128.0 + 224.0 / 1.402 * (p.r as real / 255.0 - Mean(p)))
  {
    EncodeNeverClips(p);
    LumaNear(p);
    UNear(p);
    VNear(p);
  }

  lemma LumaNear(p: Rgb)
    ensures Near(LumaSum(p), 16.0 + 219.0 * Mean(p))
  {
    var c := LumaSum(p) - 16;
    assert 256 * c <= 66 * p.r + 129 * p.g + 25 * p.b + 128 < 256 * c + 256;
  }

  lemma UNear(p: Rgb)
    ensures Near(USum(p), 128.0 + 224.0 / 1.772 * (p.b as real / 255.0 - Mean(p)))
  {
    var d := USum(p) - 128;
    assert 256 * d <= -38 * p.r - 74 * p.g + 112 * p.b + 128 < 256 * d + 256;
  }

  lemma VNear(p: Rgb)
    ensures Near(VSum(p), 128.0 + 224.0 / 1.402 * (p.r as real / 255.0 - Mean(p)))
  {
    var e := VSum(p) - 128;
    assert 256 * e <= 112 * p.r - 94 * p.g - 18 * p.b + 128 < 256 * e + 256;
  }

  /** The standard's luma and colour differences as fractions, for every byte. */
  function Luma(y: byte): real { (y as real - 16.0) / 219.0 }
  function Blueness(u: byte): real { 1.772 * (u as real - 128.0) / 224.0 }
  function Redness(v: byte): real { 1.402 * (v as real - 128.0) / 224.0 }

  /** a is the channel of the given fraction of full scale, and black or white outside the range. */
  predicate Shows(a: byte, x: real) {
    if x < 0.0 then a == 0 else if x > 1.0 then a == 255 else Near(a, 255.0 * x)
  }

  /** Every triple of bytes, also one that no single pixel encodes to, decodes to the standard's colour:
      each channel is less than 1 away, and black or white where the standard leaves the range. */
  lemma DecodeNearStandard(y: byte, u: byte, v: byte)
    ensures var q := Decode(y, u, v);
            && Shows(q.r, Luma(y) + Redness(v))
            && Shows(q.g, Luma(y) - 0.114 / 0.587 * Blueness(u) - 0.299 / 0.587 * Redness(v))
            && Shows(q.b, Luma(y) + Blueness(u))
  {
    hide Shows, Near, Luma, Blueness, Redness, Clip;
    RedNear(y, v);
    GreenNear(y, u, v);
    BlueNear(y, u);
    var c, d, e := y as int - 16, u as int - 128, v as int - 128;
    ClipShows((298 * c + 409 * e + 128) / 256, Luma(y) + Redness(v));
    ClipShows((298 * c - 100 * d - 208 * e + 128) / 256,
              Luma(y) - 0.114 / 0.587 * Blueness(u) - 0.299 / 0.587 * Redness(v));
    ClipShows((298 * c + 516 * d + 128) / 256, Luma(y) + Blueness(u));
  }

  lemma ClipShows(sum: int, x: real)
    requires Near(sum, 255.0 * x)
    ensures Shows(Clip(sum), x)
  {
  }

  lemma RedNear(y: byte, v: byte)
    ensures Near((298 * (y as int - 16) + 409 * (v as int - 128) + 128) / 256, 255.0 * (Luma(y) + Redness(v)))
  {
    var c, e := y as int - 16, v as int - 128;
    var r := (298 * c + 409 * e + 128) / 256;
    assert 256 * r <= 298 * c + 409 * e + 128 < 256 * r + 256;
  }

  lemma GreenNear(y: byte, u: byte, v: byte)
    ensures Near((298 * (y as int - 16) - 100 * (u as int - 128) - 208 * (v as int - 128) + 128) / 256,
                 255.0 * (Luma(y) - 0.114 / 0.587 * Blueness(u) - 0.299 / 0.587 * Redness(v)))
  {
    var c, d, e := y as int - 16, u as int - 128, v as int - 128;
    var g := (298 * c - 100 * d - 208 * e + 128) / 256;
    assert 256 * g <= 298 * c - 100 * d - 208 * e + 128 < 256 * g + 256;
  }

  lemma BlueNear(y: byte, u: byte)
    ensures Near((298 * (y as int - 16) + 516 * (u as int - 128) + 128) / 256, 255.0 * (Luma(y) + Blueness(u)))
  {
    var c, d := y as int - 16, u as int - 128;
    var b := (298 * c + 516 * d + 128) / 256;
    assert 256 * b <= 298 * c + 516 * d + 128 < 256 * b + 256;
  }

  // --- Round trip

  predicate Within(a: byte, b: byte, d: nat) {
    -(d as int) <= a - b <= d
  }

  /** p comes back from YUV changed by at most 2 in red and green and 3 in blue. */
  predicate Close(p: Rgb, q: Rgb) {
    Within(q.r, p.r, 2) && Within(q.g, p.g, 2) && Within(q.b, p.b, 3)
  }

  lemma RedClose(p: Rgb)
    ensures Within(YuvToR(ToY(p) - 16, ToV(p) - 128), p.r, 2)
  {
    EncodeNeverClips(p);
    var c, e := LumaSum(p) - 16, VSum(p) - 128;
    assert 256 * c <= 66 * p.r + 129 * p.g + 25 * p.b + 128 < 256 * c + 256;
    assert 256 * e <= 112 * p.r - 94 * p.g - 18 * p.b + 128 < 256 * e + 256;
  }

  lemma GreenClose(p: Rgb)
    ensures Within(YuvToG(ToY(p) - 16, ToU(p) - 128, ToV(p) - 128), p.g, 2)
  {
    EncodeNeverClips(p);
    var c, d, e := LumaSum(p) - 16, USum(p) - 128, VSum(p) - 128;
    assert 256 * c <= 66 * p.r + 129 * p.g + 25 * p.b + 128 < 256 * c + 256;
    assert 256 * d <= -38 * p.r - 74 * p.g + 112 * p.b + 128 < 256 * d + 256;
    assert 256 * e <= 112 * p.r - 94 * p.g - 18 * p.b + 128 < 256 * e + 256;
  }

  lemma BlueClose(p: Rgb)
    ensures Within(YuvToB(ToY(p) - 16, ToU(p) - 128), p.b, 3)
  {
    EncodeNeverClips(p);
    var c, d := LumaSum(p) - 16, USum(p) - 128;
    assert 256 * c <= 66 * p.r + 129 * p.g + 25 * p.b + 128 < 256 * c + 256;
    assert 256 * d <= -38 * p.r - 74 * p.g + 112 * p.b + 128 < 256 * d + 256;
  }

  /** The pixel round trip. */
  lemma PixelRoundTrip(p: Rgb)
    ensures Close(p, Decode(ToY(p), ToU(p), ToV(p)))
  {
    RedClose(p);
    GreenClose(p);
    BlueClose(p);
  }

  /** Every one of the six bounds is reached by some pixel. */
  lemma RedBoundSharp()
    ensures var p := Rgb(0, 1, 215); YuvToR(ToY(p) - 16, ToV(p) - 128) == p.r + 2
    ensures var p := Rgb(152, 207, 0); YuvToR(ToY(p) - 16, ToV(p) - 128) == p.r - 2
  {
    var p := Rgb(0, 1, 215);
    assert ToY(p) == 38 && ToV(p) == 113;
    var q := Rgb(152, 207, 0);
    assert ToY(q) == 159 && ToV(q) == 118;
  }

  lemma GreenBoundSharp()
    ensures var p := Rgb(147, 0, 211); YuvToG(ToY(p) - 16, ToU(p) - 128, ToV(p) - 128) == p.g + 2
    ensures var p := Rgb(0, 184, 141); YuvToG(ToY(p) - 16, ToU(p) - 128, ToV(p) - 128) == p.g - 2
  {
    var p := Rgb(147, 0, 211);
    assert ToY(p) == 75 && ToU(p) == 198 && ToV(p) == 177;
    var q := Rgb(0, 184, 141);
    assert ToY(q) == 122 && ToU(q) == 137 && ToV(q) == 51;
  }

  lemma BlueBoundSharp()
    ensures var p := Rgb(11, 255, 2); YuvToB(ToY(p) - 16, ToU(p) - 128) == p.b + 3
    ensures var p := Rgb(0, 4, 230); YuvToB(ToY(p) - 16, ToU(p) - 128) == p.b - 3
  {
    var p := Rgb(11, 255, 2);
    assert ToY(p) == 148 && ToU(p) == 54;
    var q := Rgb(0, 4, 230);
    assert ToY(q) == 40 && ToU(q) == 227;
  }

  predicate Gray(p: Rgb) {
    p.r == p.g == p.b
  }

  /** A gray pixel has neutral chroma, and neutral chroma decodes to gray, within 1 of the original. */
  lemma GrayStaysGray(p: Rgb)
    requires Gray(p)
    ensures ToU(p) == 128 && ToV(p) == 128
    ensures var q := Decode(ToY(p), 128, 128); Gray(q) && Within(q.r, p.r, 1)
  {
  }
}
