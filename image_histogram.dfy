/** The per-channel histogram of the image-filter sandbox
    (6/scripts/script.js): three arrays of 256 counters, one per colour
    channel, each counting how many pixels carry each sample value. */
module Histogram {
  import opened PixelBuffer

  /** How many of the first `n` pixels have value `v` in channel `c`. */
  function Count(s: seq<Channel>, c: nat, v: int, n: nat): nat
    requires c < 4 && 4 * n <= |s|
  {
    if n == 0 then 0
    else Count(s, c, v, n - 1) + (if s[4 * (n - 1) + c] == v then 1 else 0)
  }

  /** The 256 buckets of channel `c` over the first `n` pixels. */
  function Buckets(s: seq<Channel>, c: nat, n: nat): (h: seq<nat>)
    requires c < 4 && 4 * n <= |s|
    ensures |h| == 256
  {
    seq(256, v => Count(s, c, v, n))
  }

  /** The sum of a list of counters. */
  function Sum(h: seq<nat>): nat
  {
    if |h| == 0 then 0 else Sum(h[..|h| - 1]) + h[|h| - 1]
  }

  /** Incrementing one counter raises the sum by exactly one. */
  lemma {:induction false} SumIncrement(h: seq<nat>, x: nat)
    requires x < |h|
    ensures Sum(h[x := h[x] + 1]) == Sum(h) + 1
  {
    var h' := h[x := h[x] + 1];
    var n := |h| - 1;
    if x == n {
      assert h'[..n] == h[..n];
    } else {
      assert h'[..n] == h[..n][x := h[x] + 1];
      SumIncrement(h[..n], x);
    }
  }

  /** Counting one more pixel increments exactly the bucket of its value. */
  lemma BucketsStep(s: seq<Channel>, c: nat, n: nat)
    requires c < 4 && 4 * (n + 1) <= |s|
    ensures Buckets(s, c, n + 1)
              == Buckets(s, c, n)[s[4 * n + c] := Buckets(s, c, n)[s[4 * n + c]] + 1]
  {
  }

  /** Every channel's buckets add up to the number of pixels counted. */
  lemma {:induction false} BucketsTotal(s: seq<Channel>, c: nat, n: nat)
    requires c < 4 && 4 * n <= |s|
    ensures Sum(Buckets(s, c, n)) == n
  {
    if n == 0 {
      var z := Buckets(s, c, 0);
      ZeroPrefix(z, 256);
      assert z[..256] == z;
    } else {
      BucketsTotal(s, c, n - 1);
      BucketsStep(s, c, n - 1);
      SumIncrement(Buckets(s, c, n - 1), s[4 * (n - 1) + c]);
    }
  }

  /** A list of zero counters sums to zero. */
  lemma {:induction false} ZeroPrefix(z: seq<nat>, m: nat)
    requires m <= |z| && forall i :: 0 <= i < |z| ==> z[i] == 0
    ensures Sum(z[..m]) == 0
  {
    if m > 0 {
      assert z[..m][..m - 1] == z[..m - 1];
      ZeroPrefix(z, m - 1);
    }
  }

  /** `computeHistogram`: one pass over the pixels, bumping one counter per
      colour channel. */
  method ComputeHistogram(data: array<Channel>) returns (r: array<nat>, g: array<nat>, b: array<nat>)
    requires WholePixels(data[..])
    ensures r[..] == Buckets(data[..], 0, data.Length / 4)
    ensures g[..] == Buckets(data[..], 1, data.Length / 4)
    ensures b[..] == Buckets(data[..], 2, data.Length / 4)
  {
    ghost var s := data[..];
    r := new nat[256](_ => 0);
    g := new nat[256](_ => 0);
    b := new nat[256](_ => 0);
    var i := 0;
    ghost var n := 0;
    while i < data.Length
      invariant 0 <= i <= data.Length && i == 4 * n
      invariant r[..] == Buckets(s, 0, n)
      invariant g[..] == Buckets(s, 1, n)
      invariant b[..] == Buckets(s, 2, n)
    {
      Bump(r, data[i], s, 0, n);
      Bump(g, data[i + 1], s, 1, n);
      Bump(b, data[i + 2], s, 2, n);
      i, n := i + 4, n + 1;
    }
    assert n == data.Length / 4;
  }

  /** `hist[value]++` for the next pixel's sample in channel `c`. */
  method Bump(hist: array<nat>, value: Channel, ghost s: seq<Channel>, ghost c: nat, ghost n: nat)
    requires c < 4 && 4 * (n + 1) <= |s| && value == s[4 * n + c]
    requires hist[..] == Buckets(s, c, n)
    modifies hist
    ensures hist[..] == Buckets(s, c, n + 1)
  {
    BucketsStep(s, c, n);
    hist[value] := hist[value] + 1;
  }

  /** Each of the three histograms counts every pixel exactly once. */
  lemma HistogramTotals(s: seq<Channel>)
    requires WholePixels(s)
    ensures Sum(Buckets(s, 0, |s| / 4)) == |s| / 4
    ensures Sum(Buckets(s, 1, |s| / 4)) == |s| / 4
    ensures Sum(Buckets(s, 2, |s| / 4)) == |s| / 4
  {
    BucketsTotal(s, 0, |s| / 4);
    BucketsTotal(s, 1, |s| / 4);
    BucketsTotal(s, 2, |s| / 4);
  }
}
