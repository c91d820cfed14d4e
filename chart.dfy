/** The data model of the live chart (5/scripts/chart.js): three series,
    each a sliding window of `visiblePoints` random values, the value-to-
    pixel mapping, the edge-clamped moving average used for smoothing, the
    statistics card, the hover search and the handlers that change the
    value range or pause the ticker.  Drawing is not part of this model;
    `Math.random()` draws are parameters. */
module LiveChart {
  import opened Wrappers
  import opened RealArith

  /** Horizontal distance between consecutive points, in pixels. */
  const XIncrement := 20

  /** `visiblePoints` for a canvas `width` pixels wide. */
  function VisiblePoints(width: nat): (n: nat)
    ensures n >= 1 && (n - 1) * XIncrement <= width
  {
    width / XIncrement + 1
  }

  /* ---------------- random values ---------------- */

  /** A draw of `Math.random()`. */
  predicate IsUnit(u: real)
  {
    0.0 <= u < 1.0
  }

  /** `randBetween(min, max)` for the draw `u`. */
  function RandBetween(lo: real, hi: real, u: real): real
  {
    u * (hi - lo) + lo
  }

  /** For an ordered range a draw lands inside it, and below the top unless
      the range is a single point. */
  lemma RandBetweenRange(lo: real, hi: real, u: real)
    requires lo <= hi && IsUnit(u)
    ensures lo <= RandBetween(lo, hi, u) <= hi
    ensures lo < hi ==> RandBetween(lo, hi, u) < hi
  {
    ScaleAtMost(hi - lo, u);
    if lo < hi {
      var d := hi - lo;
      MulStrict(u, 1.0, d);
      assert u * d < d;
      assert RandBetween(lo, hi, u) == u * d + lo;
    }
  }

  predicate AllUnits(us: seq<real>)
  {
    forall i :: 0 <= i < |us| ==> IsUnit(us[i])
  }

  predicate Within(data: seq<real>, lo: real, hi: real)
  {
    forall i :: 0 <= i < |data| ==> lo <= data[i] <= hi
  }

  /* ---------------- the sliding window ---------------- */

  /** `addNewValues` on one series: append, then drop the oldest value when
      the series is longer than `cap`. */
  function Slide(data: seq<real>, x: real, cap: nat): (r: seq<real>)
    ensures |data| <= cap ==> |r| <= cap
    ensures cap > 0 ==> 0 < |r| && r[|r| - 1] == x
  {
    var pushed := data + [x];
    if |pushed| > cap then
      pushed[1..]
    else pushed
  }

  /** The last `n` values of `s` (all of them if there are fewer). */
  function LastN(s: seq<real>, n: nat): (r: seq<real>)
    ensures |r| == if |s| < n then |s| else n
  {
    if |s| <= n then s else s[|s| - n..]
  }

  /** A series that never held more than `cap` values keeps exactly the
      last `cap` values it was ever given. */
  lemma SlideIsWindow(data: seq<real>, x: real, cap: nat)
    requires |data| <= cap
    ensures Slide(data, x, cap) == LastN(data + [x], cap)
  {
  }

  lemma {:induction false} SlideAll(data: seq<real>, xs: seq<real>, cap: nat)
    requires |data| <= cap
    ensures SlideMany(data, xs, cap) == LastN(data + xs, cap)
    decreases |xs|
  {
    if |xs| > 0 {
      var init := xs[..|xs| - 1];
      var x := xs[|xs| - 1];
      SlideAll(data, init, cap);
      var w := LastN(data + init, cap);
      assert xs[..|xs| - 1] == init;
      assert SlideMany(data, xs, cap) == Slide(w, x, cap);
      assert data + xs == (data + init) + [x];
      SlideIsWindow(w, x, cap);
      assert LastN(w + [x], cap) == LastN((data + init) + [x], cap);
    }
  }

  /** The series after the ticks that brought the values `xs`. */
  function SlideMany(data: seq<real>, xs: seq<real>, cap: nat): seq<real>
  {
    if |xs| == 0 then data else Slide(SlideMany(data, xs[..|xs| - 1], cap), xs[|xs| - 1], cap)
  }

  /* ---------------- value to pixel ---------------- */

  function RealMax(a: real, b: real): real
  {
    if a >= b then a else b
  }

  function RealMin(a: real, b: real): real
  {
    if a <= b then a else b
  }

  /** The share of the span `value` lies above `lo`, after clamping. */
  function Ratio(value: real, lo: real, hi: real): (r: real)
    ensures lo <= hi ==> 0.0 <= r <= 1.0
  {
    var clamped := RealMax(lo, RealMin(hi, value));
    var span := RealMax(1.0, hi - lo);
    if lo <= hi then
      DivBounds(clamped - lo, span, 0.0, 1.0);
      (clamped - lo) / span
    else (clamped - lo) / span
  }

  /** `valueToY`: the pixel row of `value` on a canvas `height` high. */
  function ValueToY(value: real, lo: real, hi: real, height: real): (y: real)
    ensures lo <= hi && 0.0 <= height ==> 0.0 <= y <= height
  {
    height - Scale(Ratio(value, lo, hi), height)
  }

  function Scale(ratio: real, height: real): (r: real)
    ensures 0.0 <= ratio <= 1.0 && 0.0 <= height ==> 0.0 <= r <= height
  {
    if 0.0 <= ratio <= 1.0 && 0.0 <= height then
      ScaleAtMost(height, ratio);
      ratio * height
    else ratio * height
  }

  /** Clamping to [`lo`, `hi`] keeps the order of two values. */
  lemma ClampMonotone(a: real, b: real, lo: real, hi: real)
    requires a <= b && lo <= hi
    ensures lo <= RealMax(lo, RealMin(hi, a)) <= RealMax(lo, RealMin(hi, b)) <= hi
  {
  }

  lemma RatioMonotone(a: real, b: real, lo: real, hi: real)
    requires a <= b && lo <= hi
    ensures Ratio(a, lo, hi) <= Ratio(b, lo, hi)
  {
    ClampMonotone(a, b, lo, hi);
    var span := RealMax(1.0, hi - lo);
    DivMonotone(RealMax(lo, RealMin(hi, a)) - lo, RealMax(lo, RealMin(hi, b)) - lo, span);
  }

  /** A larger value is drawn higher up (at a smaller or equal row). */
  lemma ValueToYMonotone(a: real, b: real, lo: real, hi: real, height: real)
    requires a <= b && lo <= hi && 0.0 <= height
    ensures ValueToY(b, lo, hi, height) <= ValueToY(a, lo, hi, height)
  {
    RatioMonotone(a, b, lo, hi);
    ScaleMonotone(Ratio(a, lo, hi), Ratio(b, lo, hi), height);
  }

  lemma ScaleMonotone(x: real, y: real, height: real)
    requires x <= y && 0.0 <= height
    ensures Scale(x, height) <= Scale(y, height)
  {
    var a, b := x * height, y * height;
    MulMonotone(x, y, height);
    assert a <= b;
    assert Scale(x, height) == a;
    assert Scale(y, height) == b;
  }

  /** The bottom of the range is drawn at the canvas height and, for a span
      of at least one, the top at row 0. */
  lemma ValueToYEnds(lo: real, hi: real, height: real)
    requires lo <= hi
    ensures ValueToY(lo, lo, hi, height) == height
    ensures hi - lo >= 1.0 ==> ValueToY(hi, lo, hi, height) == 0.0
  {
    var span := RealMax(1.0, hi - lo);
    assert RealMax(lo, RealMin(hi, lo)) == lo;
    assert Ratio(lo, lo, hi) == 0.0 / span;
    assert Scale(0.0, height) == 0.0 * height;
    if hi - lo >= 1.0 {
      assert span == hi - lo;
      assert RealMax(lo, RealMin(hi, hi)) == hi;
      assert Ratio(hi, lo, hi) == (hi - lo) / span;
      DivBounds(hi - lo, span, 1.0, 1.0);
      assert Scale(1.0, height) == 1.0 * height;
    }
  }

  /* ---------------- moving average ---------------- */

  /** Index `j` clamped to the series `[0, n - 1]`. */
  function ClampIndex(j: int, n: nat): (k: nat)
    requires n > 0
    ensures k < n
    ensures 0 <= j < n ==> k == j
  {
    if j < 0 then 0 else if j > n - 1 then n - 1 else j
  }

  /** The sum of `data` at the clamped indices `lo`, ..., `hi - 1`. */
  function WindowSum(data: seq<real>, lo: int, hi: int): real
    requires |data| > 0
    decreases hi - lo
  {
    if hi <= lo then 0.0 else WindowSum(data, lo, hi - 1) + data[ClampIndex(hi - 1, |data|)]
  }

  /** The smoothed value at `i`: the mean over the window of half-width
      `half` around it, indices clamped to the series. */
  function Smoothed(data: seq<real>, i: int, half: nat): real
    requires |data| > 0
  {
    WindowSum(data, i - half, i + half + 1) / (2 * half + 1) as real
  }

  /** The smallest and largest value of a non-empty series. */
  function MinOf(data: seq<real>): (m: real)
    requires |data| > 0
    ensures m in data
    ensures forall i :: 0 <= i < |data| ==> m <= data[i]
  {
    if |data| == 1 then data[0]
    else
      var rest := MinOf(data[1..]);
      assert forall i :: 1 <= i < |data| ==> data[i] == data[1..][i - 1];
      if data[0] <= rest then data[0] else rest
  }

  function MaxOf(data: seq<real>): (m: real)
    requires |data| > 0
    ensures m in data
    ensures forall i :: 0 <= i < |data| ==> data[i] <= m
  {
    if |data| == 1 then data[0]
    else
      var rest := MaxOf(data[1..]);
      assert forall i :: 1 <= i < |data| ==> data[i] == data[1..][i - 1];
      if data[0] >= rest then data[0] else rest
  }

  /** A window sum lies between count times the least and count times the
      greatest value. */
  lemma {:induction false} WindowSumBounds(data: seq<real>, lo: int, hi: int, a: real, b: real)
    requires |data| > 0 && lo <= hi
    requires forall k :: 0 <= k < |data| ==> a <= data[k] <= b
    ensures (hi - lo) as real * a <= WindowSum(data, lo, hi) <= (hi - lo) as real * b
    decreases hi - lo
  {
    if hi > lo {
      WindowSumBounds(data, lo, hi - 1, a, b);
      var n := (hi - 1 - lo) as real;
      var prev, v := WindowSum(data, lo, hi - 1), data[ClampIndex(hi - 1, |data|)];
      assert WindowSum(data, lo, hi) == prev + v;
      assert a <= v <= b;
      BoundStep(prev, v, n, (hi - lo) as real, a, b);
    }
  }

  /** Adding one value in [`a`, `b`] to a sum of `n` such values. */
  lemma BoundStep(prev: real, v: real, n: real, m: real, a: real, b: real)
    requires n * a <= prev <= n * b && a <= v <= b && m == n + 1.0
    ensures m * a <= prev + v <= m * b
  {
    assert m * a == n * a + a;
    assert m * b == n * b + b;
  }

  /** A mean over a window of values in [`a`, `b`] lies in [`a`, `b`]. */
  lemma SmoothedWithin(data: seq<real>, i: int, half: nat, a: real, b: real)
    requires |data| > 0
    requires forall k :: 0 <= k < |data| ==> a <= data[k] <= b
    ensures a <= Smoothed(data, i, half) <= b
  {
    var lo, hi := i - half, i + half + 1;
    var count := (hi - lo) as real;
    var sum := WindowSum(data, lo, hi);
    WindowSumBounds(data, lo, hi, a, b);
    DivBounds(sum, count, a, b);
    assert count == (2 * half + 1) as real;
  }

  /** Smoothing never leaves the range of the series. */
  lemma SmoothedBounds(data: seq<real>, i: int, half: nat)
    requires |data| > 0
    ensures MinOf(data) <= Smoothed(data, i, half) <= MaxOf(data)
  {
    SmoothedWithin(data, i, half, MinOf(data), MaxOf(data));
  }

  /** Smoothing a constant series gives the constant back. */
  lemma SmoothedConstant(data: seq<real>, c: real, i: int, half: nat)
    requires |data| > 0
    requires forall k :: 0 <= k < |data| ==> data[k] == c
    ensures Smoothed(data, i, half) == c
  {
    SmoothedWithin(data, i, half, c, c);
  }

  /** `movingAverage(data, windowSize)`. */
  method MovingAverage(data: seq<real>, windowSize: nat) returns (result: seq<real>)
    ensures |result| == |data|
    ensures forall i :: 0 <= i < |data| ==> result[i] == Smoothed(data, i, windowSize / 2)
  {
    var half := windowSize / 2;
    result := [];
    for i := 0 to |data|
      invariant |result| == i
      invariant forall k :: 0 <= k < i ==> result[k] == Smoothed(data, k, half)
    {
      var sum := 0.0;
      var count := 0;
      var j := i - half;
      while j <= i + half
        invariant i - half <= j <= i + half + 1
        invariant count == j - (i - half)
        invariant sum == WindowSum(data, i - half, j)
      {
        var idx := ClampIndex(j, |data|);
        sum := sum + data[idx];
        count := count + 1;
        j := j + 1;
      }
      result := result + [sum / count as real];
    }
  }

  /** Smoothing keeps the length, keeps a constant series as it is, and
      keeps every value between the least and the greatest input. */
  lemma MovingAverageProperties(data: seq<real>, result: seq<real>, half: nat)
    requires |data| > 0 && |result| == |data|
    requires forall i :: 0 <= i < |data| ==> result[i] == Smoothed(data, i, half)
    ensures forall i :: 0 <= i < |result| ==> MinOf(data) <= result[i] <= MaxOf(data)
    ensures (forall i :: 0 <= i < |data| ==> data[i] == data[0]) ==> result == data
  {
    forall i | 0 <= i < |result|
      ensures MinOf(data) <= result[i] <= MaxOf(data)
    {
      SmoothedBounds(data, i, half);
    }
    if forall i :: 0 <= i < |data| ==> data[i] == data[0] {
      forall i | 0 <= i < |result|
        ensures result[i] == data[i]
      {
        SmoothedConstant(data, data[0], i, half);
      }
    }
  }

  /* ---------------- statistics ---------------- */

  datatype Trend = Rising | Falling | Steady

  /** The trend of a series from its last two values; a single value has
      no previous one and counts as its own. */
  function TrendOf(values: seq<real>): (t: Trend)
    requires |values| > 0
    ensures var last := values[|values| - 1];
            var prev := if |values| >= 2 then values[|values| - 2] else last;
            && (t == Rising <==> last > prev)
            && (t == Falling <==> last < prev)
            && (t == Steady <==> last == prev)
  {
    var last := values[|values| - 1];
    var prev := if |values| >= 2 then values[|values| - 2] else last;
    if last > prev then Rising else if last < prev then Falling else Steady
  }

  lemma SingleValueSteady(v: real)
    ensures TrendOf([v]) == Steady
  {
  }

  /** Sum of a series. */
  function Total(values: seq<real>): real
  {
    if |values| == 0 then 0.0 else Total(values[..|values| - 1]) + values[|values| - 1]
  }

  /** The values on a series' statistics card (before rounding to one
      decimal place). */
  datatype Stats = Stats(last: real, min: real, max: real, avg: real, trend: Trend)

  function StatsOf(values: seq<real>): (s: Stats)
    requires |values| > 0
    ensures s.min <= s.last <= s.max
    ensures s.min <= s.avg <= s.max
  {
    var lo, hi := MinOf(values), MaxOf(values);
    AverageBounds(values, lo, hi);
    Stats(values[|values| - 1], lo, hi, Total(values) / |values| as real, TrendOf(values))
  }

  /** The mean of values that lie in [lo, hi] lies there too. */
  lemma AverageBounds(values: seq<real>, lo: real, hi: real)
    requires |values| > 0 && forall k :: 0 <= k < |values| ==> lo <= values[k] <= hi
    ensures lo <= Total(values) / |values| as real <= hi
  {
    TotalBounds(values, lo, hi);
    DivBounds(Total(values), |values| as real, lo, hi);
  }

  lemma {:induction false} TotalBounds(values: seq<real>, a: real, b: real)
    requires forall k :: 0 <= k < |values| ==> a <= values[k] <= b
    ensures |values| as real * a <= Total(values) <= |values| as real * b
  {
    if |values| > 0 {
      var init := values[..|values| - 1];
      TotalBounds(init, a, b);
      var n := |init| as real;
      assert |values| as real == n + 1.0;
      assert (n + 1.0) * a == n * a + a;
      assert (n + 1.0) * b == n * b + b;
    }
  }

  /* ---------------- hover search ---------------- */

  /** A hovered point: series, index, position and value, with the squared
      distance to the mouse. */
  datatype Hover = Hover(series: nat, index: nat, x: real, y: real, value: real, dist2: real)

  /** How close the mouse must be, in pixels. */
  const HoverRadius := 10.0

  /** A point's squared distance to the mouse; comparing squared distances
      orders points as `Math.sqrt` of them does. */
  function Dist2(x: real, y: real, mouseX: real, mouseY: real): real
  {
    (x - mouseX) * (x - mouseX) + (y - mouseY) * (y - mouseY)
  }

  /** (`s`, `i`) comes before (`t`, `j`) in the search order. */
  predicate Before(s: nat, i: nat, t: nat, j: nat)
  {
    s < t || (s == t && i < j)
  }

  /** The values one series gets from the draws `us` (the inner loop of
      `initData`). */
  method RandomSeries(us: seq<real>, lo: real, hi: real) returns (data: seq<real>)
    requires lo <= hi && AllUnits(us)
    ensures |data| == |us| && Within(data, lo, hi)
    ensures forall k :: 0 <= k < |us| ==> data[k] == RandBetween(lo, hi, us[k])
  {
    data := [];
    for i := 0 to |us|
      invariant |data| == i && Within(data, lo, hi)
      invariant forall k :: 0 <= k < i ==> data[k] == RandBetween(lo, hi, us[k])
    {
      RandBetweenRange(lo, hi, us[i]);
      data := data + [RandBetween(lo, hi, us[i])];
    }
  }

  /* ---------------- the chart ---------------- */

  class Chart {
    const width: nat
    const height: nat
    const visiblePoints: nat
    var running: bool
    /** Whether the ticker interval is installed. */
    var ticking: bool
    var intervalMs: int
    var min: real
    var max: real
    /** The values of the three series. */
    var series: seq<seq<real>>
    var hover: Option<Hover>

    ghost predicate Valid()
      reads this
    {
      && visiblePoints == VisiblePoints(width)
      && ticking == running
      && min <= max
      && |series| == 3
      && (forall s :: 0 <= s < 3 ==> |series[s]| == visiblePoints && Within(series[s], min, max))
    }

    /** The pixel position of point `i` of series `s`. */
    function PointX(i: nat): real
    {
      (i * XIncrement) as real
    }

    function PointY(value: real): real
      reads this
    {
      ValueToY(value, min, max, height as real)
    }

    /** `initData` with the draws `units`, one list per series. */
    method InitData(units: seq<seq<real>>)
      requires |units| == 3 && forall s :: 0 <= s < 3 ==> |units[s]| == visiblePoints && AllUnits(units[s])
      requires visiblePoints == VisiblePoints(width) && min <= max && ticking == running
      modifies this`series
      ensures Valid()
      ensures forall s, i :: 0 <= s < 3 && 0 <= i < visiblePoints ==>
                series[s][i] == RandBetween(min, max, units[s][i])
    {
      series := [[], [], []];
      for s := 0 to 3
        invariant |series| == 3
        invariant forall t :: 0 <= t < s ==> |series[t]| == visiblePoints && Within(series[t], min, max)
        invariant forall t, i :: 0 <= t < s && 0 <= i < visiblePoints ==>
                    series[t][i] == RandBetween(min, max, units[t][i])
      {
        var data := RandomSeries(units[s], min, max);
        series := series[s := data];
      }
    }

    /** The chart as loaded on a `width` x `height` canvas: range [0,
        height], running, ticking every second, no hover. */
    constructor (w: nat, h: nat, units: seq<seq<real>>)
      requires |units| == 3 && forall s :: 0 <= s < 3 ==> |units[s]| == VisiblePoints(w) && AllUnits(units[s])
      ensures Valid()
      ensures width == w && height == h && min == 0.0 && max == h as real
      ensures running && intervalMs == 1000 && hover.None?
      ensures forall s, i :: 0 <= s < 3 && 0 <= i < visiblePoints ==>
                series[s][i] == RandBetween(min, max, units[s][i])
    {
      width, height := w, h;
      visiblePoints := VisiblePoints(w);
      running, ticking := true, true;
      intervalMs := 1000;
      min, max := 0.0, h as real;
      hover := None;
      series := [];
      new;
      InitData(units);
    }

    /** One tick of the ticker: `addNewValues` with one draw per series. */
    method AddNewValues(units: seq<real>)
      requires Valid() && |units| == 3 && AllUnits(units)
      modifies this`series
      ensures Valid()
      ensures forall s :: 0 <= s < 3 ==>
                series[s] == Slide(old(series[s]), RandBetween(min, max, units[s]), visiblePoints)
    {
      for s := 0 to 3
        invariant |series| == 3
        invariant forall t :: 0 <= t < 3 ==> |series[t]| == visiblePoints && Within(series[t], min, max)
        invariant forall t :: 0 <= t < s ==>
                    series[t] == Slide(old(series[t]), RandBetween(min, max, units[t]), visiblePoints)
        invariant forall t :: s <= t < 3 ==> series[t] == old(series[t])
      {
        var x := RandBetween(min, max, units[s]);
        RandBetweenRange(min, max, units[s]);
        var data := series[s] + [x];
        if |data| > visiblePoints {
          data := data[1..];
        }
        series := series[s := data];
      }
    }

    /** `setIntervalValue(ms)`: a running ticker is restarted. */
    method SetIntervalValue(ms: int)
      requires Valid()
      modifies this`intervalMs, this`ticking
      ensures Valid() && intervalMs == ms
    {
      intervalMs := ms;
      if running {
        ticking := true;
      }
    }

    /** `toggleRunning`: pausing removes the ticker, resuming installs it. */
    method ToggleRunning()
      requires Valid()
      modifies this`running, this`ticking
      ensures Valid()
      ensures running == !old(running) && ticking == running
    {
      running := !running;
      if running {
        ticking := true;
      } else {
        ticking := false;
      }
    }

    /** The change handler of the minimum field. */
    method OnMinChange(m: real, units: seq<seq<real>>)
      requires Valid()
      requires |units| == 3 && forall s :: 0 <= s < 3 ==> |units[s]| == visiblePoints && AllUnits(units[s])
      modifies this`min, this`max, this`series
      ensures Valid()
      ensures min == m && min < max
      ensures max == if old(max) <= m then m + 10.0 else old(max)
      ensures forall s, i :: 0 <= s < 3 && 0 <= i < visiblePoints ==>
                series[s][i] == RandBetween(min, max, units[s][i])
    {
      min := m;
      if max <= min {
        max := min + 10.0;
      }
      InitData(units);
    }

    /** The change handler of the maximum field. */
    method OnMaxChange(m: real, units: seq<seq<real>>)
      requires Valid()
      requires |units| == 3 && forall s :: 0 <= s < 3 ==> |units[s]| == visiblePoints && AllUnits(units[s])
      modifies this`min, this`max, this`series
      ensures Valid()
      ensures max == m && min < max
      ensures min == if m <= old(min) then m - 10.0 else old(min)
      ensures forall s, i :: 0 <= s < 3 && 0 <= i < visiblePoints ==>
                series[s][i] == RandBetween(min, max, units[s][i])
    {
      max := m;
      if max <= min {
        min := max - 10.0;
      }
      InitData(units);
    }

    /** Point `i` of series `s` lies within the hover radius. */
    predicate Near(s: nat, i: nat, mouseX: real, mouseY: real)
      reads this
      requires s < |series| && i < |series[s]|
    {
      Dist2(PointX(i), PointY(series[s][i]), mouseX, mouseY) < HoverRadius * HoverRadius
    }

    /** `h` is point (`h.series`, `h.index`) with its position, value and
        squared distance, near the mouse, no farther than any point before
        (`s`, `i`) in search order, and strictly nearer than every point
        before itself. */
    ghost predicate Found(h: Hover, s: nat, i: nat, mouseX: real, mouseY: real)
      reads this
      requires Valid()
    {
      && h.series < 3 && h.index < |series[h.series]| && Before(h.series, h.index, s, i)
      && h.value == series[h.series][h.index]
      && h.x == PointX(h.index) && h.y == PointY(h.value)
      && h.dist2 == Dist2(h.x, h.y, mouseX, mouseY) < HoverRadius * HoverRadius
      && (forall t, k :: 0 <= t < 3 && 0 <= k < |series[t]| && Before(t, k, s, i) ==>
            h.dist2 <= Dist2(PointX(k), PointY(series[t][k]), mouseX, mouseY))
      && (forall t, k :: 0 <= t < 3 && 0 <= k < |series[t]| && Before(t, k, h.series, h.index) ==>
            h.dist2 < Dist2(PointX(k), PointY(series[t][k]), mouseX, mouseY))
    }

    /** No point before (`s`, `i`) in search order is near the mouse. */
    ghost predicate NoneNear(s: nat, i: nat, mouseX: real, mouseY: real)
      reads this
      requires Valid()
    {
      forall t, k :: 0 <= t < 3 && 0 <= k < |series[t]| && Before(t, k, s, i) ==> !Near(t, k, mouseX, mouseY)
    }

    /** The outcome of the search over every point: the nearest point
        within the radius, the first in search order on a tie, or none
        when no point is near. */
    ghost predicate IsNearest(r: Option<Hover>, mouseX: real, mouseY: real)
      reads this
      requires Valid()
    {
      && (r.None? <==> NoneNear(3, 0, mouseX, mouseY))
      && (r.Some? ==> Found(r.value, 3, 0, mouseX, mouseY))
    }

    lemma NoneNearNext(s: nat, i: nat, mouseX: real, mouseY: real)
      requires Valid() && s < 3 && i < |series[s]|
      ensures NoneNear(s, i + 1, mouseX, mouseY) <==> NoneNear(s, i, mouseX, mouseY) && !Near(s, i, mouseX, mouseY)
    {
    }

    /** The end of one series is the start of the next. */
    lemma RowEnd(h: Hover, s: nat, mouseX: real, mouseY: real)
      requires Valid() && s < 3
      ensures NoneNear(s, |series[s]|, mouseX, mouseY) <==> NoneNear(s + 1, 0, mouseX, mouseY)
      ensures Found(h, s, |series[s]|, mouseX, mouseY) <==> Found(h, s + 1, 0, mouseX, mouseY)
    {
      assert forall t, k :: 0 <= t < 3 && 0 <= k < |series[t]| ==>
               (Before(t, k, s, |series[s]|) <==> Before(t, k, s + 1, 0));
    }

    /** Point (`s`, `i`) as a hover candidate. */
    ghost predicate IsPoint(h: Hover, mouseX: real, mouseY: real)
      reads this
      requires Valid()
    {
      && h.series < 3 && h.index < |series[h.series]|
      && h.value == series[h.series][h.index]
      && h.x == PointX(h.index) && h.y == PointY(h.value)
      && h.dist2 == Dist2(h.x, h.y, mouseX, mouseY)
    }

    /** The first near point found so far becomes the result. */
    lemma TakeFirst(h: Hover, mouseX: real, mouseY: real)
      requires Valid() && IsPoint(h, mouseX, mouseY) && h.dist2 < HoverRadius * HoverRadius
      requires NoneNear(h.series, h.index, mouseX, mouseY)
      ensures Found(h, h.series, h.index + 1, mouseX, mouseY)
    {
      forall t, k | 0 <= t < 3 && 0 <= k < |series[t]| && Before(t, k, h.series, h.index + 1)
        ensures h.dist2 <= Dist2(PointX(k), PointY(series[t][k]), mouseX, mouseY)
      {
        if !(t == h.series && k == h.index) {
          assert Before(t, k, h.series, h.index);
          assert !Near(t, k, mouseX, mouseY);
        }
      }
      forall t, k | 0 <= t < 3 && 0 <= k < |series[t]| && Before(t, k, h.series, h.index)
        ensures h.dist2 < Dist2(PointX(k), PointY(series[t][k]), mouseX, mouseY)
      {
        assert !Near(t, k, mouseX, mouseY);
      }
    }

    /** A point strictly nearer than the result so far replaces it. */
    lemma TakeNearer(old_h: Hover, h: Hover, mouseX: real, mouseY: real)
      requires Valid() && IsPoint(h, mouseX, mouseY) && h.dist2 < old_h.dist2
      requires Found(old_h, h.series, h.index, mouseX, mouseY)
      ensures Found(h, h.series, h.index + 1, mouseX, mouseY)
    {
    }

    /** A point that is not strictly nearer leaves the result as it is. */
    lemma Keep(h: Hover, s: nat, i: nat, mouseX: real, mouseY: real)
      requires Valid() && s < 3 && i < |series[s]| && Found(h, s, i, mouseX, mouseY)
      requires !(Near(s, i, mouseX, mouseY) && Dist2(PointX(i), PointY(series[s][i]), mouseX, mouseY) < h.dist2)
      ensures Found(h, s, i + 1, mouseX, mouseY)
    {
    }

    /** The search has seen every point before (`s`, `i`): `r` is its
        result over those points. */
    ghost predicate Searched(r: Option<Hover>, s: nat, i: nat, mouseX: real, mouseY: real)
      reads this
      requires Valid()
    {
      && (r.None? <==> NoneNear(s, i, mouseX, mouseY))
      && (r.Some? ==> Found(r.value, s, i, mouseX, mouseY))
    }

    /** The candidate the search builds for point (`s`, `i`). */
    function Candidate(s: nat, i: nat, mouseX: real, mouseY: real): (h: Hover)
      reads this
      requires Valid() && s < 3 && i < |series[s]|
      ensures IsPoint(h, mouseX, mouseY) && h.series == s && h.index == i
    {
      var x := PointX(i);
      var y := PointY(series[s][i]);
      Hover(s, i, x, y, series[s][i], Dist2(x, y, mouseX, mouseY))
    }

    /** One point of the search: a candidate near the mouse and nearer than
        the result so far replaces it. */
    lemma SearchStep(prev: Option<Hover>, next: Option<Hover>, s: nat, i: nat, mouseX: real, mouseY: real)
      requires Valid() && s < 3 && i < |series[s]|
      requires Searched(prev, s, i, mouseX, mouseY)
      requires var h := Candidate(s, i, mouseX, mouseY);
               next == if h.dist2 < HoverRadius * HoverRadius && (prev.None? || h.dist2 < prev.value.dist2)
                       then Some(h) else prev
      ensures Searched(next, s, i + 1, mouseX, mouseY)
    {
      var h := Candidate(s, i, mouseX, mouseY);
      NoneNearNext(s, i, mouseX, mouseY);
      if h.dist2 < HoverRadius * HoverRadius && (prev.None? || h.dist2 < prev.value.dist2) {
        if prev.None? {
          TakeFirst(h, mouseX, mouseY);
        } else {
          TakeNearer(prev.value, h, mouseX, mouseY);
        }
      } else if prev.Some? {
        Keep(prev.value, s, i, mouseX, mouseY);
      }
    }

    /** The end of one series is the start of the next. */
    lemma SearchRowEnd(r: Option<Hover>, s: nat, mouseX: real, mouseY: real)
      requires Valid() && s < 3
      requires Searched(r, s, |series[s]|, mouseX, mouseY)
      ensures Searched(r, s + 1, 0, mouseX, mouseY)
    {
      RowEnd(if r.Some? then r.value else Hover(0, 0, 0.0, 0.0, 0.0, 0.0), s, mouseX, mouseY);
    }

    /** The search's step at one candidate: it replaces the result so far
        when it is within the radius and strictly nearer. */
    static function Pick(prev: Option<Hover>, h: Hover): Option<Hover>
    {
      if h.dist2 < HoverRadius * HoverRadius && (prev.None? || h.dist2 < prev.value.dist2) then Some(h) else prev
    }

    /** The result of the search once it has visited every point before
        (`s`, `i`) in search order. */
    ghost function NearestSoFar(s: nat, i: nat, mouseX: real, mouseY: real): Option<Hover>
      reads this
      requires Valid() && s <= 3 && (s < 3 ==> i <= |series[s]|) && (s == 3 ==> i == 0)
      decreases s, i
    {
      if i == 0 then
        if s == 0 then None else NearestSoFar(s - 1, |series[s - 1]|, mouseX, mouseY)
      else
        Pick(NearestSoFar(s, i - 1, mouseX, mouseY), Candidate(s, i - 1, mouseX, mouseY))
    }

    /** After any number of points the search result is correct for the
        points seen so far. */
    lemma {:induction false} SearchedSoFar(s: nat, i: nat, mouseX: real, mouseY: real)
      requires Valid() && s <= 3 && (s < 3 ==> i <= |series[s]|) && (s == 3 ==> i == 0)
      ensures Searched(NearestSoFar(s, i, mouseX, mouseY), s, i, mouseX, mouseY)
      decreases s, i
    {
      if i == 0 {
        if s > 0 {
          SearchedSoFar(s - 1, |series[s - 1]|, mouseX, mouseY);
          SearchRowEnd(NearestSoFar(s - 1, |series[s - 1]|, mouseX, mouseY), s - 1, mouseX, mouseY);
        }
      } else {
        SearchedSoFar(s, i - 1, mouseX, mouseY);
        SearchStep(NearestSoFar(s, i - 1, mouseX, mouseY), NearestSoFar(s, i, mouseX, mouseY), s, i - 1, mouseX, mouseY);
      }
    }

    /** `findNearestPoint(mouseX, mouseY)`. */
    method FindNearestPoint(mouseX: real, mouseY: real) returns (nearest: Option<Hover>)
      requires Valid()
      ensures nearest == NearestSoFar(3, 0, mouseX, mouseY)
      ensures IsNearest(nearest, mouseX, mouseY)
    {
      nearest := None;
      for s := 0 to 3
        invariant nearest == NearestSoFar(s, 0, mouseX, mouseY)
      {
        var data := series[s];
        for i := 0 to |data|
          invariant nearest == NearestSoFar(s, i, mouseX, mouseY)
        {
          var x := PointX(i);
          var y := PointY(data[i]);
          var dist := Dist2(x, y, mouseX, mouseY);
          if dist < HoverRadius * HoverRadius && (nearest.None? || dist < nearest.value.dist2) {
            nearest := Some(Hover(s, i, x, y, data[i], dist));
          }
        }
      }
      SearchedSoFar(3, 0, mouseX, mouseY);
    }

    /** The mouse moving to canvas position (`x`, `y`). */
    method OnMouseMove(x: real, y: real)
      requires Valid()
      modifies this`hover
      ensures Valid() && IsNearest(hover, x, y)
    {
      hover := FindNearestPoint(x, y);
    }

    /** The mouse leaving the canvas. */
    method OnMouseLeave()
      requires Valid()
      modifies this`hover
      ensures Valid() && hover.None?
    {
      hover := None;
    }
  }
}
