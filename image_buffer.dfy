/** RGBA buffers of the image-filter sandbox (6/scripts/script.js).

    A buffer is the `data` of an `ImageData`: a row-major flat array of
    length `4 * width * height`, one 8-bit sample per channel in the order
    R, G, B, A.  Writing a number into a `Uint8ClampedArray` clamps it to
    [0, 255] and rounds it half-to-even; `ToByte` is that store, computed
    exactly over `real`. */
module PixelBuffer {

  /** One sample of a `Uint8ClampedArray`. */
  type Channel = b: int | 0 <= b <= 255

  /** The sandbox's own `clamp`: `Math.max(0, Math.min(255, value))`. */
  function Clamp(v: real): (r: real)
    ensures 0.0 <= r <= 255.0
    ensures 0.0 <= v <= 255.0 ==> r == v
  {
    if v < 0.0 then 0.0 else if v > 255.0 then 255.0 else v
  }

  /** Round to the nearest integer, ties to the even neighbour. */
  function RoundHalfEven(v: real): int
  {
    var f := v.Floor;
    var frac := v - f as real;
    if frac < 0.5 then f
    else if frac > 0.5 then f + 1
    else if f % 2 == 0 then f
    else f + 1
  }

  /** Storing `v` into a `Uint8ClampedArray`: clamp to [0, 255], then round
      half-to-even. */
  function ToByte(v: real): Channel
  {
    if v <= 0.0 then 0
    else if v >= 255.0 then 255
    else
      var r := RoundHalfEven(v);
      assert 0 <= r <= 255 by { RoundHalfEvenNear(v); }
      r
  }

  /** `Math.round`: the nearest integer, ties toward +infinity. */
  function JsRound(v: real): int
  {
    (v + 0.5).Floor
  }

  lemma RoundHalfEvenNear(v: real)
    ensures v - 0.5 <= RoundHalfEven(v) as real <= v + 0.5
  {
  }

  /** The store is exact on integers that already fit a byte. */
  lemma ToByteExact(n: int)
    requires 0 <= n <= 255
    ensures ToByte(n as real) == n
  {
    assert (n as real).Floor == n;
  }

  /** The stored byte is within one half of every in-range value. */
  lemma {:induction false} ToByteNear(v: real)
    requires 0.0 <= v <= 255.0
    ensures v - 0.5 <= ToByte(v) as real <= v + 0.5
  {
    if 0.0 < v < 255.0 {
      RoundHalfEvenNear(v);
    }
  }

  /** Storing is monotone: a larger value never stores a smaller byte. */
  lemma {:induction false} ToByteMonotone(u: real, v: real)
    requires u <= v
    ensures ToByte(u) <= ToByte(v)
  {
    if 0.0 < u && v < 255.0 {
      var fu, fv := u.Floor, v.Floor;
      assert fu <= fv;
      if fu == fv {
        assert u - fu as real <= v - fv as real;
      } else {
        RoundHalfEvenNear(u);
        RoundHalfEvenNear(v);
        assert fu as real + 1.0 <= fv as real;
        assert RoundHalfEven(u) <= fu + 1;
        assert fv <= RoundHalfEven(v);
      }
    } else if 0.0 < u {
      assert ToByte(v) == 255;
    }
  }

  /** A value lying between two bytes stores to a byte between them. */
  lemma ToByteBetween(v: real, lo: Channel, hi: Channel)
    requires lo as real <= v <= hi as real
    ensures lo <= ToByte(v) <= hi
  {
    ToByteMonotone(lo as real, v);
    ToByteMonotone(v, hi as real);
    ToByteExact(lo);
    ToByteExact(hi);
  }

  /** A buffer holds whole pixels. */
  predicate WholePixels(s: seq<Channel>)
  {
    |s| % 4 == 0
  }

  /** The offset of channel `ch` of the pixel at column `x`, row `y`. */
  function Offset(width: nat, x: nat, y: nat, ch: nat): nat
  {
    (y * width + x) * 4 + ch
  }
}
