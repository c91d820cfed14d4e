/** The square-kernel convolution of the image-filter sandbox
    (6/scripts/script.js).  The output starts as a copy of the input; every
    pixel at least `half = floor(size / 2)` away from each edge gets, per
    colour channel, the clamped sum of the input window weighted by the
    kernel, and alpha 255.  The window is always read from the input, never
    from the partly written output. */
module Convolution {
  import opened PixelBuffer

  /** A kernel is a list of rows, each as long as the list. */
  predicate SquareKernel(k: seq<seq<real>>)
  {
    forall r :: 0 <= r < |k| ==> |k[r]| == |k|
  }

  /** A buffer of `width * height` pixels. */
  predicate Sized(s: seq<Channel>, width: nat, height: nat)
  {
    |s| == 4 * width * height
  }

  /* ---------------- pixel coordinates ---------------- */

  /** The column of the pixel that sample `j` belongs to. */
  function PixelX(width: nat, j: nat): nat
    requires width > 0
  {
    (j / 4) % width
  }

  /** The row of the pixel that sample `j` belongs to. */
  function PixelY(width: nat, j: nat): nat
    requires width > 0
  {
    (j / 4) / width
  }

  /** Euclidean division is unique. */
  lemma {:induction false} DivUnique(a: int, w: int, q: int, r: int)
    requires w > 0 && 0 <= r < w && a == q * w + r
    ensures a / w == q && a % w == r
  {
    var q', r' := a / w, a % w;
    assert a == q' * w + r';
    if q' > q {
      assert (q + 1) * w == q * w + w;
      MulLeq(q + 1, q', w);
    } else if q' < q {
      assert (q' + 1) * w == q' * w + w;
      MulLeq(q' + 1, q, w);
    }
  }

  lemma MulLeq(a: int, b: int, w: int)
    requires a <= b && w >= 0
    ensures a * w <= b * w
  {
    assert b * w - a * w == (b - a) * w;
  }

  /** An offset inside the buffer lies in the buffer. */
  lemma {:induction false} OffsetBound(width: nat, height: nat, x: nat, y: nat, c: nat)
    requires x < width && y < height && c < 4
    ensures Offset(width, x, y, c) < 4 * width * height
  {
    var p, hw := y * width + x, height * width;
    assert (y + 1) * width == y * width + width;
    MulLeq(y + 1, height, width);
    assert p + 1 <= hw;
    assert Offset(width, x, y, c) == p * 4 + c;
    assert 4 * width * height == 4 * hw;
  }

  /** The coordinates of a sample's pixel are inside the image, and the
      sample is that pixel's channel `j % 4`. */
  lemma {:induction false} PixelOf(width: nat, height: nat, j: nat)
    requires j < 4 * width * height
    ensures width > 0 && height > 0
    ensures PixelX(width, j) < width && PixelY(width, j) < height
    ensures Offset(width, PixelX(width, j), PixelY(width, j), j % 4) == j
  {
    var p := j / 4;
    assert j == p * 4 + j % 4;
    assert p == PixelY(width, j) * width + PixelX(width, j);
    assert 4 * width * height == 4 * (height * width);
    if PixelY(width, j) >= height {
      MulLeq(height, PixelY(width, j), width);
    }
  }

  /** The pixel coordinates of an offset are the ones it was built from. */
  lemma {:induction false} OffsetCoords(width: nat, x: nat, y: nat, c: nat)
    requires x < width && c < 4
    ensures PixelX(width, Offset(width, x, y, c)) == x
    ensures PixelY(width, Offset(width, x, y, c)) == y
    ensures Offset(width, x, y, c) % 4 == c
  {
    var j := Offset(width, x, y, c);
    DivUnique(j, 4, y * width + x, c);
    DivUnique(y * width + x, width, y, x);
  }

  /* ---------------- specification ---------------- */

  /** `sum_{kx < n} s[(sy * width + sx + kx) * 4 + c] * row[kx]`, added in
      the loop's order. */
  function RowSum(s: seq<Channel>, width: nat, height: nat, row: seq<real>,
                  sx: nat, sy: nat, c: nat, n: nat): real
    requires Sized(s, width, height) && n <= |row| && sx + n <= width && sy < height && c < 4
  {
    if n == 0 then 0.0
    else
      OffsetBound(width, height, sx + n - 1, sy, c);
      RowSum(s, width, height, row, sx, sy, c, n - 1)
        + s[Offset(width, sx + n - 1, sy, c)] as real * row[n - 1]
  }

  /** The first `m` kernel rows of the weighted sum over the window whose
      top-left pixel is `(sx, sy)`. */
  function WindowSum(s: seq<Channel>, width: nat, height: nat, k: seq<seq<real>>,
                     sx: nat, sy: nat, c: nat, m: nat): real
    requires Sized(s, width, height) && SquareKernel(k) && m <= |k|
    requires sx + |k| <= width && sy + |k| <= height && c < 4
  {
    if m == 0 then 0.0
    else WindowSum(s, width, height, k, sx, sy, c, m - 1)
           + RowSum(s, width, height, k[m - 1], sx, sy + m - 1, c, |k|)
  }

  /** The pixel `(x, y)` is at least `half` away from every edge. */
  predicate Interior(width: nat, height: nat, half: nat, x: nat, y: nat)
  {
    half <= x < width - half && half <= y < height - half
  }

  /** Channel `c` of pixel `(x, y)` after the convolution. */
  function ConvPixel(s: seq<Channel>, width: nat, height: nat, k: seq<seq<real>>,
                     x: nat, y: nat, c: nat): Channel
    requires Sized(s, width, height) && SquareKernel(k) && x < width && y < height && c < 4
  {
    var half := |k| / 2;
    if Interior(width, height, half, x, y) then
      if c == 3 then 255
      else ToByte(Clamp(WindowSum(s, width, height, k, x - half, y - half, c, |k|)))
    else
      OffsetBound(width, height, x, y, c);
      s[Offset(width, x, y, c)]
  }

  /** The whole convolved buffer. */
  function Convolved(s: seq<Channel>, width: nat, height: nat, k: seq<seq<real>>): (r: seq<Channel>)
    requires Sized(s, width, height) && SquareKernel(k)
  {
    seq(|s|, j requires 0 <= j < |s| =>
      PixelOf(width, height, j);
      ConvPixel(s, width, height, k, PixelX(width, j), PixelY(width, j), j % 4))
  }

  /* ---------------- properties ---------------- */

  /** Border pixels, alpha included, are copied unchanged; interior pixels
      are opaque and carry the clamped weighted sum of the input window. */
  lemma {:induction false} ConvolvedPixel(s: seq<Channel>, width: nat, height: nat,
                                         k: seq<seq<real>>, x: nat, y: nat, c: nat)
    requires Sized(s, width, height) && SquareKernel(k) && x < width && y < height && c < 4
    ensures Offset(width, x, y, c) < |s|
    ensures var half := |k| / 2;
      && (!Interior(width, height, half, x, y) ==>
            Convolved(s, width, height, k)[Offset(width, x, y, c)] == s[Offset(width, x, y, c)])
      && (Interior(width, height, half, x, y) && c == 3 ==>
            Convolved(s, width, height, k)[Offset(width, x, y, c)] == 255)
      && (Interior(width, height, half, x, y) && c < 3 ==>
            Convolved(s, width, height, k)[Offset(width, x, y, c)]
              == ToByte(Clamp(WindowSum(s, width, height, k, x - half, y - half, c, |k|))))
  {
    OffsetBound(width, height, x, y, c);
    OffsetCoords(width, x, y, c);
  }

  /** An image narrower or shorter than the kernel has no interior pixel,
      so the convolution leaves it unchanged. */
  lemma {:induction false} SmallImageUnchanged(s: seq<Channel>, width: nat, height: nat, k: seq<seq<real>>)
    requires Sized(s, width, height) && SquareKernel(k)
    requires width < |k| || height < |k|
    ensures Convolved(s, width, height, k) == s
  {
    forall j | 0 <= j < |s|
      ensures Convolved(s, width, height, k)[j] == s[j]
    {
      PixelOf(width, height, j);
    }
  }

  /** The identity kernel: one in the centre, zero elsewhere. */
  const IdentityKernel: seq<seq<real>> := [[0.0, 0.0, 0.0], [0.0, 1.0, 0.0], [0.0, 0.0, 0.0]]

  /** A three-wide row sum written out term by term. */
  lemma {:induction false} RowSumOfThree(s: seq<Channel>, width: nat, height: nat, row: seq<real>,
                                        sx: nat, sy: nat, c: nat)
    requires Sized(s, width, height) && |row| == 3 && sx + 3 <= width && sy < height && c < 4
    ensures Offset(width, sx + 2, sy, c) < |s|
    ensures RowSum(s, width, height, row, sx, sy, c, 3)
              == s[Offset(width, sx, sy, c)] as real * row[0]
                 + s[Offset(width, sx + 1, sy, c)] as real * row[1]
                 + s[Offset(width, sx + 2, sy, c)] as real * row[2]
  {
    OffsetBound(width, height, sx + 2, sy, c);
    assert RowSum(s, width, height, row, sx, sy, c, 1) == s[Offset(width, sx, sy, c)] as real * row[0];
  }

  /** The identity kernel reproduces every colour sample. */
  lemma {:induction false} IdentityKernelKeepsColours(s: seq<Channel>, width: nat, height: nat,
                                                     x: nat, y: nat, c: nat)
    requires Sized(s, width, height) && x < width && y < height && c < 3
    ensures Offset(width, x, y, c) < |s|
    ensures Convolved(s, width, height, IdentityKernel)[Offset(width, x, y, c)] == s[Offset(width, x, y, c)]
  {
    var k := IdentityKernel;
    ConvolvedPixel(s, width, height, k, x, y, c);
    if Interior(width, height, 1, x, y) {
      IdentityWindow(s, width, height, x, y, c);
      ToByteExact(s[Offset(width, x, y, c)]);
    }
  }

  /** Under the identity kernel the window sum of an interior pixel is its
      own sample. */
  lemma {:induction false} IdentityWindow(s: seq<Channel>, width: nat, height: nat, x: nat, y: nat, c: nat)
    requires Sized(s, width, height) && Interior(width, height, 1, x, y) && c < 3
    ensures Offset(width, x, y, c) < |s|
    ensures WindowSum(s, width, height, IdentityKernel, x - 1, y - 1, c, 3) == s[Offset(width, x, y, c)] as real
  {
    var k := IdentityKernel;
    OffsetBound(width, height, x, y, c);
    var v := s[Offset(width, x, y, c)] as real;
    RowSumOfThree(s, width, height, k[0], x - 1, y - 1, c);
    RowSumOfThree(s, width, height, k[1], x - 1, y, c);
    RowSumOfThree(s, width, height, k[2], x - 1, y + 1, c);
    assert Offset(width, x - 1 + 1, y, c) == Offset(width, x, y, c);
    var r0 := RowSum(s, width, height, k[0], x - 1, y - 1, c, 3);
    var r1 := RowSum(s, width, height, k[1], x - 1, y, c, 3);
    var r2 := RowSum(s, width, height, k[2], x - 1, y + 1, c, 3);
    assert r0 == 0.0 && r1 == v && r2 == 0.0;
    assert WindowSum(s, width, height, k, x - 1, y - 1, c, 1) == r0;
    assert WindowSum(s, width, height, k, x - 1, y - 1, c, 2) == r0 + r1;
    assert WindowSum(s, width, height, k, x - 1, y - 1, c, 3) == r0 + r1 + r2;
  }

  /* ---------------- the in-place algorithm ---------------- */

  /** Pixels before `(x, y)` in row-major order. */
  predicate Before(width: nat, j: nat, x: nat, y: nat)
    requires width > 0
  {
    PixelY(width, j) < y || (PixelY(width, j) == y && PixelX(width, j) < x)
  }

  /** The output holds the convolution for every pixel before `(x, y)` and
      the input everywhere else. */
  predicate DoneUpTo(s: seq<Channel>, out: seq<Channel>, width: nat, height: nat,
                     k: seq<seq<real>>, x: nat, y: nat)
    requires Sized(s, width, height) && SquareKernel(k) && width > 0
  {
    |out| == |s| &&
    forall j :: 0 <= j < |s| ==>
      out[j] == if Before(width, j, x, y) then Convolved(s, width, height, k)[j] else s[j]
  }

  /** Outside the interior the convolution and the input agree, so moving
      the boundary of `DoneUpTo` across border pixels changes nothing. */
  lemma {:induction false} MoveAcrossBorder(s: seq<Channel>, out: seq<Channel>, width: nat, height: nat,
                                           k: seq<seq<real>>, x: nat, y: nat, x': nat, y': nat)
    requires Sized(s, width, height) && SquareKernel(k) && width > 0
    requires DoneUpTo(s, out, width, height, k, x, y)
    requires forall j :: 0 <= j < |s| && Before(width, j, x, y) != Before(width, j, x', y') ==>
               !Interior(width, height, |k| / 2, PixelX(width, j), PixelY(width, j))
    ensures DoneUpTo(s, out, width, height, k, x', y')
  {
    forall j | 0 <= j < |s|
      ensures out[j] == if Before(width, j, x', y') then Convolved(s, width, height, k)[j] else s[j]
    {
      PixelOf(width, height, j);
    }
  }

  /** `out'` is `out` with the four samples of pixel `(x, y)` replaced by
      their convolution. */
  predicate PixelWritten(s: seq<Channel>, out: seq<Channel>, out': seq<Channel>,
                         width: nat, height: nat, k: seq<seq<real>>, x: nat, y: nat)
    requires Sized(s, width, height) && SquareKernel(k) && x < width && y < height
  {
    && |out'| == |out|
    && Offset(width, x, y, 0) + 4 <= |out|
    && (forall j :: 0 <= j < |out| && !(Offset(width, x, y, 0) <= j < Offset(width, x, y, 0) + 4)
          ==> out'[j] == out[j])
    && forall c :: 0 <= c < 4 ==> out'[Offset(width, x, y, 0) + c] == ConvPixel(s, width, height, k, x, y, c)
  }

  /** Writing pixel `(x, y)` advances `DoneUpTo` by one pixel. */
  lemma {:induction false} AdvancePixel(s: seq<Channel>, out: seq<Channel>, out': seq<Channel>,
                                       width: nat, height: nat, k: seq<seq<real>>, x: nat, y: nat)
    requires Sized(s, width, height) && SquareKernel(k) && x < width && y < height
    requires DoneUpTo(s, out, width, height, k, x, y)
    requires PixelWritten(s, out, out', width, height, k, x, y)
    ensures DoneUpTo(s, out', width, height, k, x + 1, y)
  {
    forall j | 0 <= j < |s|
      ensures out'[j] == if Before(width, j, x + 1, y) then Convolved(s, width, height, k)[j] else s[j]
    {
      PixelOf(width, height, j);
      var c := j % 4;
      if Offset(width, x, y, 0) <= j < Offset(width, x, y, 0) + 4 {
        assert j == Offset(width, x, y, j - Offset(width, x, y, 0));
        OffsetCoords(width, x, y, j - Offset(width, x, y, 0));
      } else if PixelX(width, j) == x && PixelY(width, j) == y {
        assert false;
      }
    }
  }

  /** Adds the weighted samples of one kernel row to `acc`. */
  method AddRow(data: array<Channel>, width: nat, height: nat, row: seq<real>,
                sx: nat, sy: nat, c: nat, acc: real) returns (sum: real)
    requires Sized(data[..], width, height) && sx + |row| <= width && sy < height && c < 4
    ensures sum == acc + RowSum(data[..], width, height, row, sx, sy, c, |row|)
  {
    sum := acc;
    var kx := 0;
    while kx < |row|
      invariant 0 <= kx <= |row|
      invariant sum == acc + RowSum(data[..], width, height, row, sx, sy, c, kx)
    {
      OffsetBound(width, height, sx + kx, sy, c);
      sum := sum + data[Offset(width, sx + kx, sy, c)] as real * row[kx];
      kx := kx + 1;
    }
  }

  /** The weighted sum over one window, kernel row by kernel row. */
  method KernelSum(data: array<Channel>, width: nat, height: nat, kernel: seq<seq<real>>,
                   sx: nat, sy: nat, c: nat) returns (sum: real)
    requires Sized(data[..], width, height) && SquareKernel(kernel)
    requires sx + |kernel| <= width && sy + |kernel| <= height && c < 4
    ensures sum == WindowSum(data[..], width, height, kernel, sx, sy, c, |kernel|)
  {
    sum := 0.0;
    var ky := 0;
    while ky < |kernel|
      invariant 0 <= ky <= |kernel|
      invariant sum == WindowSum(data[..], width, height, kernel, sx, sy, c, ky)
    {
      sum := AddRow(data, width, height, kernel[ky], sx, sy + ky, c, sum);
      ky := ky + 1;
    }
  }

  /** Writes the three colour channels and the alpha of pixel `(x, y)`. */
  method ConvolvePixel(data: array<Channel>, output: array<Channel>, width: nat, height: nat,
                       kernel: seq<seq<real>>, x: nat, y: nat)
    modifies output
    requires data != output && output.Length == data.Length
    requires Sized(data[..], width, height) && SquareKernel(kernel)
    requires Interior(width, height, |kernel| / 2, x, y)
    ensures PixelWritten(data[..], old(output[..]), output[..], width, height, kernel, x, y)
  {
    var half := |kernel| / 2;
    OffsetBound(width, height, x, y, 3);
    var c := 0;
    while c < 3
      invariant 0 <= c <= 3
      invariant forall j :: 0 <= j < output.Length && !(Offset(width, x, y, 0) <= j < Offset(width, x, y, 0) + c)
                  ==> output[j] == old(output[j])
      invariant forall c' :: 0 <= c' < c ==>
                  output[Offset(width, x, y, 0) + c'] == ConvPixel(data[..], width, height, kernel, x, y, c')
    {
      var sum := KernelSum(data, width, height, kernel, x - half, y - half, c);
      output[Offset(width, x, y, c)] := ToByte(Clamp(sum));
      c := c + 1;
    }
    output[Offset(width, x, y, 3)] := 255;
  }

  /** `applyConvolution`: copy the input, then convolve every interior
      pixel in row-major order. */
  method ApplyConvolution(data: array<Channel>, width: nat, height: nat, kernel: seq<seq<real>>)
    returns (output: array<Channel>)
    requires Sized(data[..], width, height) && SquareKernel(kernel)
    ensures output[..] == Convolved(data[..], width, height, kernel)
  {
    output := new Channel[data.Length];
    forall i | 0 <= i < data.Length {
      output[i] := data[i];
    }
    if width == 0 {
      assert data.Length == 0;
      return;
    }
    var half := |kernel| / 2;
    ghost var s := data[..];
    MoveAcrossBorder(s, output[..], width, height, kernel, 0, 0, 0, half);
    var y := half;
    while y < height - half
      invariant half <= y && (y <= height - half || y == half)
      invariant DoneUpTo(s, output[..], width, height, kernel, 0, y)
    {
      MoveAcrossBorder(s, output[..], width, height, kernel, 0, y, half, y);
      var x := half;
      while x < width - half
        invariant half <= x && (x <= width - half || x == half)
        invariant DoneUpTo(s, output[..], width, height, kernel, x, y)
      {
        ghost var before := output[..];
        ConvolvePixel(data, output, width, height, kernel, x, y);
        AdvancePixel(s, before, output[..], width, height, kernel, x, y);
        x := x + 1;
      }
      MoveAcrossBorder(s, output[..], width, height, kernel, x, y, 0, y + 1);
      y := y + 1;
    }
    MoveAcrossBorder(s, output[..], width, height, kernel, 0, y, 0, height);
    forall j | 0 <= j < data.Length
      ensures output[j] == Convolved(s, width, height, kernel)[j]
    {
      PixelOf(width, height, j);
    }
  }
}
