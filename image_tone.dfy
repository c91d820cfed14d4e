/** The per-pixel tone filters and the blend of the image-filter sandbox
    (6/scripts/script.js).  Each filter walks the input four samples at a
    time and writes a fresh output buffer; each method is proved equal to a
    specification function on the input's contents, and the promised
    properties are lemmas about those functions. */
module ToneFilters {
  import opened PixelBuffer
  import opened RealArith

  /** Arithmetic on the offset of a pixel's first sample. */
  lemma PixelStart(i: int)
    requires i >= 0 && i % 4 == 0
    ensures (i + 1) % 4 == 1 && (i + 2) % 4 == 2 && (i + 3) % 4 == 3 && (i + 4) % 4 == 0
    ensures (i + 1) - (i + 1) % 4 == i && (i + 2) - (i + 2) % 4 == i && (i + 3) - (i + 3) % 4 == i
  {
  }

  /* ---------------- invert ---------------- */

  /** Every colour sample becomes `255 - v`; alpha becomes 255. */
  function Inverted(s: seq<Channel>): (r: seq<Channel>)
  {
    seq(|s|, j requires 0 <= j < |s| => if j % 4 == 3 then 255 else 255 - s[j])
  }

  method ApplyInvert(data: array<Channel>) returns (output: array<Channel>)
    requires data.Length % 4 == 0
    ensures output[..] == Inverted(data[..])
  {
    output := new Channel[data.Length];
    var i := 0;
    while i < data.Length
      invariant 0 <= i <= data.Length && i % 4 == 0
      invariant forall j :: 0 <= j < i ==> output[j] == Inverted(data[..])[j]
    {
      output[i] := 255 - data[i];
      output[i + 1] := 255 - data[i + 1];
      output[i + 2] := 255 - data[i + 2];
      output[i + 3] := 255;
      i := i + 4;
    }
  }

  /** Inverting twice restores every colour sample and leaves alpha opaque. */
  lemma {:induction false} InvertTwice(s: seq<Channel>)
    ensures |Inverted(Inverted(s))| == |s|
    ensures forall j :: 0 <= j < |s| && j % 4 != 3 ==> Inverted(Inverted(s))[j] == s[j]
    ensures forall j :: 0 <= j < |s| && j % 4 == 3 ==> Inverted(Inverted(s))[j] == 255
  {
  }

  /* ---------------- threshold ---------------- */

  /** The luminance the threshold filter compares with its level. */
  function Luminance(r: Channel, g: Channel, b: Channel): real
  {
    0.299 * r as real + 0.587 * g as real + 0.114 * b as real
  }

  /** The luminance of the pixel that sample `j` belongs to. */
  function PixelLuminance(s: seq<Channel>, j: nat): real
    requires j < |s| && WholePixels(s)
  {
    var p := j - j % 4;
    Luminance(s[p], s[p + 1], s[p + 2])
  }

  /** Sample `j` of the thresholded buffer. */
  function ThresholdAt(s: seq<Channel>, level: real, j: nat): Channel
    requires j < |s| && WholePixels(s)
  {
    if j % 4 == 3 then 255 else if PixelLuminance(s, j) >= level then 255 else 0
  }

  function Thresholded(s: seq<Channel>, level: real): (r: seq<Channel>)
    requires WholePixels(s)
  {
    seq(|s|, j requires 0 <= j < |s| => ThresholdAt(s, level, j))
  }

  method ApplyThreshold(data: array<Channel>, level: real) returns (output: array<Channel>)
    requires data.Length % 4 == 0
    ensures output[..] == Thresholded(data[..], level)
  {
    ghost var s := data[..];
    output := new Channel[data.Length];
    var i := 0;
    while i < data.Length
      invariant 0 <= i <= data.Length && i % 4 == 0
      invariant forall j :: 0 <= j < i ==> output[j] == ThresholdAt(s, level, j)
    {
      var lum := Luminance(data[i], data[i + 1], data[i + 2]);
      var v: Channel := if lum >= level then 255 else 0;
      output[i] := v;
      output[i + 1] := v;
      output[i + 2] := v;
      output[i + 3] := 255;
      PixelStart(i);
      i := i + 4;
    }
    assert output[..] == Thresholded(s, level);
  }

  /** Every output pixel is opaque black or opaque white, and it is white
      exactly when its luminance reaches the level. */
  lemma {:induction false} ThresholdIsBinary(s: seq<Channel>, level: real, j: nat)
    requires WholePixels(s) && j < |s| && j % 4 != 3
    ensures var r := Thresholded(s, level);
      && r[j - j % 4] == r[j - j % 4 + 1] == r[j - j % 4 + 2] == r[j]
      && r[j - j % 4 + 3] == 255
      && (r[j] == 255 <==> PixelLuminance(s, j) >= level)
      && (r[j] == 0 <==> PixelLuminance(s, j) < level)
  {
    var p := j - j % 4;
    assert p % 4 == 0 && p + 3 < |s|;
    PixelStart(p);
    var lum := Luminance(s[p], s[p + 1], s[p + 2]);
    assert PixelLuminance(s, p) == lum && PixelLuminance(s, p + 1) == lum;
    assert PixelLuminance(s, p + 2) == lum && PixelLuminance(s, j) == lum;
  }

  /** Raising the level can only turn white pixels black. */
  lemma ThresholdAntitone(s: seq<Channel>, lo: real, hi: real)
    requires WholePixels(s) && lo <= hi
    ensures forall j :: 0 <= j < |s| ==> Thresholded(s, hi)[j] <= Thresholded(s, lo)[j]
  {
  }

  /* ---------------- sepia ---------------- */

  /** The sepia matrix row for output channel `c` applied to one pixel. */
  function SepiaMix(c: nat, r: Channel, g: Channel, b: Channel): real
    requires c < 3
  {
    if c == 0 then 0.393 * r as real + 0.769 * g as real + 0.189 * b as real
    else if c == 1 then 0.349 * r as real + 0.686 * g as real + 0.168 * b as real
    else 0.272 * r as real + 0.534 * g as real + 0.131 * b as real
  }

  /** Output channel `c` of the sepia tone of one pixel, clamped and stored. */
  function SepiaTone(c: nat, r: Channel, g: Channel, b: Channel): Channel
    requires c < 3
  {
    ToByte(Clamp(SepiaMix(c, r, g, b)))
  }

  function SepiaAt(s: seq<Channel>, j: nat): Channel
    requires WholePixels(s) && j < |s|
  {
    var p := j - j % 4;
    if j % 4 == 3 then 255 else SepiaTone(j % 4, s[p], s[p + 1], s[p + 2])
  }

  function Sepia(s: seq<Channel>): (r: seq<Channel>)
    requires WholePixels(s)
  {
    seq(|s|, j requires 0 <= j < |s| => SepiaAt(s, j))
  }

  /** The four samples of the sepia pixel that starts at `i`. */
  lemma SepiaPixel(s: seq<Channel>, i: nat)
    requires WholePixels(s) && i % 4 == 0 && i < |s|
    ensures i + 3 < |s|
    ensures SepiaAt(s, i) == SepiaTone(0, s[i], s[i + 1], s[i + 2])
    ensures SepiaAt(s, i + 1) == SepiaTone(1, s[i], s[i + 1], s[i + 2])
    ensures SepiaAt(s, i + 2) == SepiaTone(2, s[i], s[i + 1], s[i + 2])
    ensures SepiaAt(s, i + 3) == 255
  {
    PixelStart(i);
  }

  method ApplySepia(data: array<Channel>) returns (output: array<Channel>)
    requires data.Length % 4 == 0
    ensures output[..] == Sepia(data[..])
  {
    ghost var s := data[..];
    output := new Channel[data.Length];
    var i := 0;
    while i < data.Length
      invariant 0 <= i <= data.Length && i % 4 == 0
      invariant forall j :: 0 <= j < i ==> output[j] == SepiaAt(s, j)
    {
      SepiaPixel(s, i);
      PixelStart(i);
      var r, g, b := data[i], data[i + 1], data[i + 2];
      output[i] := SepiaTone(0, r, g, b);
      output[i + 1] := SepiaTone(1, r, g, b);
      output[i + 2] := SepiaTone(2, r, g, b);
      output[i + 3] := 255;
      i := i + 4;
    }
    assert output[..] == Sepia(s);
  }

  /** Sepia is monotone: a pixel that is no brighter than another in every
      channel gets a sepia tone that is no brighter in every channel. */
  lemma {:induction false} SepiaMonotone(c: nat, r1: Channel, g1: Channel, b1: Channel,
                                         r2: Channel, g2: Channel, b2: Channel)
    requires c < 3 && r1 <= r2 && g1 <= g2 && b1 <= b2
    ensures SepiaTone(c, r1, g1, b1) <= SepiaTone(c, r2, g2, b2)
  {
    assert SepiaMix(c, r1, g1, b1) <= SepiaMix(c, r2, g2, b2);
    ToByteMonotone(Clamp(SepiaMix(c, r1, g1, b1)), Clamp(SepiaMix(c, r2, g2, b2)));
  }

  /* ---------------- posterize ---------------- */

  /** `Math.max(2, Math.min(32, Math.round(param / 8)))`. */
  function PosterizeLevels(param: real): (levels: int)
    ensures 2 <= levels <= 32
  {
    var n := JsRound(param / 8.0);
    if n < 2 then 2 else if n > 32 then 32 else n
  }

  /** The distance between two adjacent output levels, `255 / (levels - 1)`. */
  function LevelStep(levels: int): real
    requires 2 <= levels
  {
    255.0 / (levels - 1) as real
  }

  /** The index of the level nearest to `v`: `Math.round(v / step)`. */
  function SnapIndex(v: real, levels: int): int
    requires 2 <= levels
  {
    JsRound(v / LevelStep(levels))
  }

  /** The value of level `k`: `k * step`. */
  function LevelValue(k: int, levels: int): real
    requires 2 <= levels
  {
    k as real * LevelStep(levels)
  }

  /** `quantize`: snap `v` to the nearest level, clamp, and store. */
  function Quantize(v: Channel, levels: int): Channel
    requires 2 <= levels
  {
    ToByte(Clamp(LevelValue(SnapIndex(v as real, levels), levels)))
  }

  function Posterized(s: seq<Channel>, param: real): (r: seq<Channel>)
  {
    seq(|s|, j requires 0 <= j < |s| =>
      if j % 4 == 3 then 255 else Quantize(s[j], PosterizeLevels(param)))
  }

  method ApplyPosterize(data: array<Channel>, param: real) returns (output: array<Channel>)
    requires data.Length % 4 == 0
    ensures output[..] == Posterized(data[..], param)
  {
    ghost var s := data[..];
    output := new Channel[data.Length];
    var levels := PosterizeLevels(param);
    var i := 0;
    while i < data.Length
      invariant 0 <= i <= data.Length && i % 4 == 0
      invariant forall j :: 0 <= j < i ==> output[j] == if j % 4 == 3 then 255 else Quantize(s[j], levels)
    {
      output[i] := Quantize(data[i], levels);
      output[i + 1] := Quantize(data[i + 1], levels);
      output[i + 2] := Quantize(data[i + 2], levels);
      output[i + 3] := 255;
      PixelStart(i);
      i := i + 4;
    }
    assert output[..] == Posterized(s, param);
  }

  /** The level index a sample snaps to lies in [0, levels - 1], so the
      snapped level never leaves [0, 255] before the store. */
  lemma {:induction false} QuantizeIndex(v: Channel, levels: int)
    requires 2 <= levels <= 32
    ensures 0 <= SnapIndex(v as real, levels) <= levels - 1
    ensures 0.0 <= LevelValue(SnapIndex(v as real, levels), levels) <= 255.0
  {
    var st := LevelStep(levels);
    StepSpan(levels);
    DivBounds(v as real, st, 0.0, (levels - 1) as real);
    RoundWithin(v as real / st, levels - 1);
    LevelValueWithin(SnapIndex(v as real, levels), levels);
  }

  /** `levels - 1` steps span the 255 sample values. */
  lemma StepSpan(levels: int)
    requires 2 <= levels
    ensures LevelStep(levels) > 0.0
    ensures LevelStep(levels) * (levels - 1) as real == 255.0
  {
  }

  /** Rounding a value in [0, n] stays in [0, n]. */
  lemma RoundWithin(x: real, n: nat)
    requires 0.0 <= x <= n as real
    ensures 0 <= JsRound(x) <= n
  {
  }

  /** The levels numbered 0 to `levels - 1` lie in [0, 255]. */
  lemma LevelValueWithin(k: int, levels: int)
    requires 2 <= levels && 0 <= k <= levels - 1
    ensures 0.0 <= LevelValue(k, levels) <= 255.0
  {
    var st := LevelStep(levels);
    var m := (levels - 1) as real;
    StepSpan(levels);
    MulMonotone(0.0, k as real, st);
    MulMonotone(k as real, m, st);
    assert m * st == 255.0;
  }

  /** The level step is wider than one sample value: at most 31 levels
      share the 255 steps. */
  lemma {:induction false} LevelStepWide(levels: int)
    requires 2 <= levels <= 32
    ensures LevelStep(levels) > 1.0
  {
    var m := (levels - 1) as real;
    var st := LevelStep(levels);
    assert st * m == 255.0;
    if st <= 1.0 {
      MulMonotone(st, 1.0, m);
    }
  }

  /** A byte within one half of level `k` lies strictly inside
      `(k - 1/2) * step .. (k + 1/2) * step`, because the step is wider
      than one, so it snaps back to level `k`. */
  lemma {:induction false} SnapBack(q: Channel, k: int, levels: int)
    requires 2 <= levels <= 32 && 0 <= k <= levels - 1
    requires LevelValue(k, levels) - 0.5 <= q as real <= LevelValue(k, levels) + 0.5
    ensures SnapIndex(q as real, levels) == k
  {
    var st := LevelStep(levels);
    LevelStepWide(levels);
    var ks := k as real * st;
    var half := 0.5 * st;
    assert (k as real - 0.5) * st == ks - half;
    assert (k as real + 0.5) * st == ks + half;
    DivBoundsHalfOpen(q as real, st, k as real - 0.5, k as real + 0.5);
    var x := q as real / st;
    assert k as real <= x + 0.5 < k as real + 1.0;
  }

  /** Posterizing twice with the same parameter gives what posterizing once
      gives: a stored level snaps back to itself. */
  lemma {:induction false} QuantizeIdempotent(v: Channel, levels: int)
    requires 2 <= levels <= 32
    ensures Quantize(Quantize(v, levels), levels) == Quantize(v, levels)
  {
    var k := SnapIndex(v as real, levels);
    QuantizeIndex(v, levels);
    var y := LevelValue(k, levels);
    assert Clamp(y) == y;
    var q := ToByte(y);
    assert q == Quantize(v, levels);
    ToByteNear(y);
    SnapBack(q, k, levels);
  }

  lemma PosterizeIdempotent(s: seq<Channel>, param: real)
    ensures Posterized(Posterized(s, param), param) == Posterized(s, param)
  {
    var levels := PosterizeLevels(param);
    forall j | 0 <= j < |s| && j % 4 != 3
      ensures Posterized(Posterized(s, param), param)[j] == Posterized(s, param)[j]
    {
      QuantizeIdempotent(s[j], levels);
    }
  }

  /** With the default parameter 128 there are 16 levels, the step is 17,
      and the sample 200 snaps to 12 * 17 = 204. */
  lemma PosterizeDefaultExample()
    ensures PosterizeLevels(128.0) == 16 && LevelStep(16) == 17.0
    ensures Quantize(200, 16) == 204
  {
    assert (128.0 / 8.0 + 0.5).Floor == 16;
    assert 200.0 / 17.0 + 0.5 == 208.5 / 17.0;
    assert 12.0 <= 208.5 / 17.0 < 13.0;
    assert SnapIndex(200.0, 16) == 12;
    assert LevelValue(12, 16) == 204.0;
    ToByteExact(204);
  }

  /* ---------------- blend ---------------- */

  /** Linear interpolation, `x * (1 - t) + y * t`. */
  function Lerp(x: real, y: real, t: real): real
  {
    x * (1.0 - t) + y * t
  }

  /** One blended sample: the interpolation, clamped and stored. */
  function Mix(a: Channel, b: Channel, alpha: real): Channel
  {
    ToByte(Clamp(Lerp(a as real, b as real, alpha)))
  }

  function Blended(original: seq<Channel>, processed: seq<Channel>, alpha: real): (r: seq<Channel>)
    requires |processed| == |original|
  {
    seq(|original|, j requires 0 <= j < |original| =>
      if j % 4 == 3 then 255 else Mix(original[j], processed[j], alpha))
  }

  method BlendWithOriginal(original: array<Channel>, processed: array<Channel>, alpha: real)
    returns (output: array<Channel>)
    requires original.Length % 4 == 0 && processed.Length == original.Length
    ensures output[..] == Blended(original[..], processed[..], alpha)
  {
    ghost var o, p := original[..], processed[..];
    output := new Channel[original.Length];
    var i := 0;
    while i < original.Length
      invariant 0 <= i <= original.Length && i % 4 == 0
      invariant forall j :: 0 <= j < i ==> output[j] == if j % 4 == 3 then 255 else Mix(o[j], p[j], alpha)
    {
      output[i] := Mix(original[i], processed[i], alpha);
      output[i + 1] := Mix(original[i + 1], processed[i + 1], alpha);
      output[i + 2] := Mix(original[i + 2], processed[i + 2], alpha);
      output[i + 3] := 255;
      PixelStart(i);
      i := i + 4;
    }
    assert output[..] == Blended(o, p, alpha);
  }

  /** Opacity 0 reproduces the original's colours, opacity 1 the processed
      colours; alpha is always opaque and the length is the original's. */
  lemma BlendEndpoints(original: seq<Channel>, processed: seq<Channel>)
    requires |processed| == |original|
    ensures |Blended(original, processed, 0.0)| == |original|
    ensures forall j :: 0 <= j < |original| && j % 4 != 3 ==> Blended(original, processed, 0.0)[j] == original[j]
    ensures forall j :: 0 <= j < |original| && j % 4 != 3 ==> Blended(original, processed, 1.0)[j] == processed[j]
    ensures forall a: real, j :: 0 <= j < |original| && j % 4 == 3 ==> Blended(original, processed, a)[j] == 255
  {
    forall j | 0 <= j < |original|
      ensures Mix(original[j], processed[j], 0.0) == original[j]
      ensures Mix(original[j], processed[j], 1.0) == processed[j]
    {
      ToByteExact(original[j]);
      ToByteExact(processed[j]);
    }
  }

  /** A convex combination of two reals lies between them. */
  lemma LerpBetween(x: real, y: real, t: real)
    requires 0.0 <= t <= 1.0 && x <= y
    ensures x <= Lerp(x, y, t) <= y
  {
    var d := y - x;
    ScaleAtMost(d, t);
    var w := d * t;
    assert 0.0 <= w <= d;
    assert Lerp(x, y, t) == x + w;
  }

  /** For an opacity in [0, 1] every blended colour lies between the two
      samples it mixes. */
  lemma {:induction false} MixBetween(a: Channel, b: Channel, alpha: real)
    requires 0.0 <= alpha <= 1.0
    ensures a <= b ==> a <= Mix(a, b, alpha) <= b
    ensures b <= a ==> b <= Mix(a, b, alpha) <= a
  {
    var v := Lerp(a as real, b as real, alpha);
    if a <= b {
      LerpBetween(a as real, b as real, alpha);
      assert Clamp(v) == v;
      ToByteBetween(Clamp(v), a, b);
    } else {
      LerpBetween(b as real, a as real, 1.0 - alpha);
      assert Lerp(b as real, a as real, 1.0 - alpha) == v;
      assert Clamp(v) == v;
      ToByteBetween(Clamp(v), b, a);
    }
  }
}
