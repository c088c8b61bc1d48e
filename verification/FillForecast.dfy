/** The bounded recent trend: which points it uses, the line through them, and when it reaches the target. */
module FillForecast {
  import opened Basics

  const MAX_GAP: int := 90 * SECOND
  const MIN_SPAN: int := 60 * SECOND
  const MIN_SAMPLES: nat := 3
  const DROP: real := 1.0
  const MIN_R_SQUARED: real := 0.8
  const MAX_REMAINING: int := 24 * 3600
  const SLACK: real := 0.000000001

  // ---- Recent points ----

  datatype Sample = Sample(observed: Option<int>, generated: Option<int>, value: Option<real>, valid: bool, invalidSamples: nat,
                           available: bool, input: nat, methodVersion: Option<nat>, simulated: bool)

  datatype Kind = Kind(input: nat, methodVersion: Option<nat>, simulated: bool)

  datatype Point = Point(at: int, value: real)

  predicate Usable(s: Sample, kind: Kind, cutoff: int, now: int) {
    && s.valid && s.invalidSamples == 0 && s.available
    && s.value.Some? && s.observed.Some? && s.generated.Some?
    && cutoff <= s.observed.value <= s.generated.value <= now
    && Kind(s.input, s.methodVersion, s.simulated) == kind
  }

  /** A point goes on from the one before: soon enough after it, and not through a collection. */
  predicate Joined(p: Point, q: Point) {
    0 < q.at - p.at <= MAX_GAP && q.value >= p.value - DROP
  }

  predicate Contiguous(points: seq<Point>) {
    forall i | 0 <= i < |points| - 1 :: Joined(points[i], points[i + 1])
  }

  /** Point i is read from the sample as far from the end, which is usable. */
  predicate ReadAt(points: seq<Point>, samples: seq<Sample>, kind: Kind, cutoff: int, now: int, i: nat)
    requires i < |points| <= |samples|
  {
    var s := samples[|samples| - |points| + i];
    Usable(s, kind, cutoff, now) && points[i] == Point(s.observed.value, s.value.value)
  }

  /** The sample before the points is not usable, or they do not go on from it. */
  predicate CutBefore(points: seq<Point>, s: Sample, kind: Kind, cutoff: int, now: int) {
    Usable(s, kind, cutoff, now) ==> points != [] && !Joined(Point(s.observed.value, s.value.value), points[0])
  }

  /** The points are the last samples, all usable and joined, and one sample more would not be. */
  predicate IsRecent(points: seq<Point>, samples: seq<Sample>, kind: Kind, cutoff: int, now: int) {
    && |points| <= |samples|
    && Contiguous(points)
    && (forall i | 0 <= i < |points| :: ReadAt(points, samples, kind, cutoff, now, i))
    && (|points| < |samples| ==> CutBefore(points, samples[|samples| - |points| - 1], kind, cutoff, now))
  }

  method RecentPoints(samples: seq<Sample>, kind: Kind, cutoff: int, now: int) returns (points: seq<Point>)
    ensures IsRecent(points, samples, kind, cutoff, now)
  {
    points := [];
    for i := 0 to |samples|
      invariant IsRecent(points, samples[..i], kind, cutoff, now)
    {
      var s := samples[i];
      assert samples[..i + 1] == samples[..i] + [s];
      ghost var before := points;
      if !Usable(s, kind, cutoff, now) {
        points := [];
        continue;
      }
      var p := Point(s.observed.value, s.value.value);
      if points != [] {
        var last := points[|points| - 1];
        var gap := p.at - last.at;
        if gap <= 0 || gap > MAX_GAP || p.value < last.value - DROP {
          points := [];
        }
      }
      points := points + [p];
      RecentExtends(before, points, samples[..i], s, kind, cutoff, now);
    }
    assert samples[..|samples|] == samples;
  }

  lemma RecentExtends(before: seq<Point>, points: seq<Point>, samples: seq<Sample>, s: Sample, kind: Kind, cutoff: int, now: int)
    requires IsRecent(before, samples, kind, cutoff, now) && Usable(s, kind, cutoff, now)
    requires var p := Point(s.observed.value, s.value.value);
             points == (if before != [] && !Joined(before[|before| - 1], p) then [] else before) + [p]
    ensures IsRecent(points, samples + [s], kind, cutoff, now)
  {
    hide Usable, Joined;
    if before != [] {
      assert ReadAt(before, samples, kind, cutoff, now, |before| - 1);
    }
    forall i | 0 <= i < |points| ensures ReadAt(points, samples + [s], kind, cutoff, now, i) {
      if i < |points| - 1 {
        assert ReadAt(before, samples, kind, cutoff, now, i);
      }
    }
  }

  /** Being recent says everything: no other list of points is. */
  lemma RecentIsUnique(a: seq<Point>, b: seq<Point>, samples: seq<Sample>, kind: Kind, cutoff: int, now: int)
    requires IsRecent(a, samples, kind, cutoff, now) && IsRecent(b, samples, kind, cutoff, now)
    ensures a == b
  {
    NoneIsLonger(a, b, samples, kind, cutoff, now);
    NoneIsLonger(b, a, samples, kind, cutoff, now);
    forall i | 0 <= i < |a| ensures a[i] == b[i] {
      assert ReadAt(a, samples, kind, cutoff, now, i) && ReadAt(b, samples, kind, cutoff, now, i);
    }
  }

  lemma NoneIsLonger(a: seq<Point>, b: seq<Point>, samples: seq<Sample>, kind: Kind, cutoff: int, now: int)
    requires IsRecent(a, samples, kind, cutoff, now) && IsRecent(b, samples, kind, cutoff, now)
    ensures |a| >= |b|
  {
    hide Usable, Joined;
    var k := |b| - |a| - 1;
    assert k >= 0 ==> ReadAt(b, samples, kind, cutoff, now, k) && (a != [] ==> ReadAt(b, samples, kind, cutoff, now, k + 1) && Joined(b[k], b[k + 1]));
    assert a != [] ==> ReadAt(a, samples, kind, cutoff, now, 0);
  }

  /** A reading that is whole, of this input, and both observed and generated within the time in question. */
  predicate CountsIn(s: Sample, kind: Kind, cutoff: int, now: int) {
    && s.valid && s.available && s.invalidSamples == 0 && s.value.Some?
    && s.input == kind.input && s.methodVersion == kind.methodVersion && s.simulated == kind.simulated
    && s.observed.Some? && s.generated.Some?
    && cutoff <= s.observed.value && s.observed.value <= s.generated.value && s.generated.value <= now
  }

  /** It comes within a minute and a half of the one before and has not dropped by more than a point. */
  predicate ComesAfter(a: Sample, b: Sample) {
    && a.observed.Some? && b.observed.Some? && a.value.Some? && b.value.Some?
    && a.observed.value < b.observed.value <= a.observed.value + 90 * SECOND && a.value.value - b.value.value <= 1.0
  }

  predicate LastCount(samples: seq<Sample>, m: nat, kind: Kind, cutoff: int, now: int)
    requires m <= |samples|
  {
    && (forall i | |samples| - m <= i < |samples| :: CountsIn(samples[i], kind, cutoff, now))
    && forall i | |samples| - m < i < |samples| :: ComesAfter(samples[i - 1], samples[i])
  }

  lemma CutIsNeeded(points: seq<Point>, samples: seq<Sample>, kind: Kind, cutoff: int, now: int)
    requires IsRecent(points, samples, kind, cutoff, now) && |points| < |samples|
    ensures var first := |samples| - |points|;
            || !CountsIn(samples[first - 1], kind, cutoff, now)
            || (points != [] && !ComesAfter(samples[first - 1], samples[first]))
  {
    if points != [] {
      assert ReadAt(points, samples, kind, cutoff, now, 0);
    }
  }

  /** The last `m` samples are all used exactly when each of them counts and comes after the one before. */
  lemma RecentReaches(points: seq<Point>, samples: seq<Sample>, kind: Kind, cutoff: int, now: int, m: nat)
    requires IsRecent(points, samples, kind, cutoff, now) && m <= |samples|
    ensures |points| >= m <==> LastCount(samples, m, kind, cutoff, now)
  {
    var first := |samples| - |points|;
    forall i | 0 <= i < |points|
      ensures ReadAt(points, samples, kind, cutoff, now, i) && CountsIn(samples[first + i], kind, cutoff, now)
      ensures i > 0 ==> ComesAfter(samples[first + i - 1], samples[first + i])
    {
      assert ReadAt(points, samples, kind, cutoff, now, i);
      if i > 0 {
        assert ReadAt(points, samples, kind, cutoff, now, i - 1);
        assert Joined(points[i - 1], points[i]);
      }
    }
    if |points| >= m {
      forall i | |samples| - m <= i < |samples|
        ensures CountsIn(samples[i], kind, cutoff, now)
        ensures i > |samples| - m ==> ComesAfter(samples[i - 1], samples[i])
      {
        assert ReadAt(points, samples, kind, cutoff, now, i - first);
      }
    } else {
      CutIsNeeded(points, samples, kind, cutoff, now);
    }
  }

  // ---- Sums ----

  function Total(a: seq<real>): real {
    if a == [] then 0.0 else Total(a[..|a| - 1]) + a[|a| - 1]
  }

  function Product(x: real, y: real): real { x * y }

  function Dot(a: seq<real>, b: seq<real>): real
    requires |a| == |b|
  {
    if a == [] then 0.0 else Dot(a[..|a| - 1], b[..|b| - 1]) + Product(a[|a| - 1], b[|b| - 1])
  }

  function Mean(a: seq<real>): real
    requires a != []
  {
    Total(a) / (|a| as real)
  }

  function Centred(a: seq<real>): seq<real>
    requires a != []
  {
    Shift(a, Mean(a))
  }

  function Shift(a: seq<real>, m: real): seq<real> { seq(|a|, i requires 0 <= i < |a| => a[i] - m) }

  function Blend(x: real, t: real, y: real, c: real): real { x * t + y + c }

  /** a * t + b + c, element by element. */
  function Combined(a: seq<real>, t: real, b: seq<real>, c: real): seq<real>
    requires |a| == |b|
  {
    seq(|a|, i requires 0 <= i < |a| => Blend(a[i], t, b[i], c))
  }

  lemma {:induction false} TotalOfShift(a: seq<real>, m: real)
    ensures Total(Shift(a, m)) == Total(a) - (|a| as real) * m
  {
    if a != [] {
      var n := |a| - 1;
      TotalOfShift(a[..n], m);
      assert Shift(a, m)[..n] == Shift(a[..n], m);
    }
  }

  lemma CentredIsBalanced(a: seq<real>)
    requires a != []
    ensures Total(Centred(a)) == 0.0
  {
    TotalOfShift(a, Mean(a));
  }

  lemma Square(x: real)
    ensures Product(x, x) >= 0.0
    ensures x != 0.0 ==> Product(x, x) > 0.0
  {
    if x != 0.0 {
      PositiveProduct(if x > 0.0 then x else -x, if x > 0.0 then x else -x);
      SignDoesNotMatter(x);
    }
  }

  lemma SignDoesNotMatter(x: real)
    ensures Product(-x, -x) == Product(x, x)
  {
  }

  lemma {:induction false} DotSelf(a: seq<real>)
    ensures Dot(a, a) >= 0.0
  {
    hide Product;
    if a != [] {
      DotSelf(a[..|a| - 1]);
      Square(a[|a| - 1]);
    }
  }

  /** The sum of squares of a * t + b + c over n elements, from the sums over a and b. */
  function Expanded(t: real, c: real, n: real, aa: real, ab: real, bb: real, a: real, b: real): real {
    t * t * aa + 2.0 * t * ab + bb + 2.0 * t * c * a + 2.0 * c * b + n * (c * c)
  }

  lemma ExpandedAdds(t: real, c: real, n: real, aa: real, ab: real, bb: real, a: real, b: real, x: real, y: real)
    ensures Expanded(t, c, n + 1.0, aa + Product(x, x), ab + Product(x, y), bb + Product(y, y), a + x, b + y)
         == Expanded(t, c, n, aa, ab, bb, a, b) + Product(Blend(x, t, y, c), Blend(x, t, y, c))
  {
    SquareOfSum(x, t, y, c);
  }

  lemma SquareOfSum(x: real, t: real, y: real, c: real)
    ensures Product(Blend(x, t, y, c), Blend(x, t, y, c))
         == t * t * (x * x) + 2.0 * t * (x * y) + y * y + 2.0 * t * c * x + 2.0 * c * y + c * c
  {
  }

  lemma {:induction false} DotOfCombined(a: seq<real>, t: real, b: seq<real>, c: real)
    requires |a| == |b|
    ensures Dot(Combined(a, t, b, c), Combined(a, t, b, c))
         == Expanded(t, c, |a| as real, Dot(a, a), Dot(a, b), Dot(b, b), Total(a), Total(b))
  {
    hide Expanded, Product, Blend;
    if a == [] {
      ExpandedEmpty(t, c);
    } else {
      var n := |a| - 1;
      DotOfCombined(a[..n], t, b[..n], c);
      CombinedPrefix(a, t, b, c);
      ExpandedAdds(t, c, n as real, Dot(a[..n], a[..n]), Dot(a[..n], b[..n]), Dot(b[..n], b[..n]), Total(a[..n]), Total(b[..n]), a[n], b[n]);
      assert |a| as real == n as real + 1.0;
    }
  }

  lemma CombinedPrefix(a: seq<real>, t: real, b: seq<real>, c: real)
    requires |a| == |b| && a != []
    ensures Combined(a, t, b, c)[..|a| - 1] == Combined(a[..|a| - 1], t, b[..|a| - 1], c)
  {
    hide Blend;
    var n := |a| - 1;
    forall i | 0 <= i < n ensures Combined(a, t, b, c)[i] == Combined(a[..n], t, b[..n], c)[i] {
      assert a[i] == a[..n][i] && b[i] == b[..n][i];
    }
  }

  lemma ExpandedEmpty(t: real, c: real)
    ensures Expanded(t, c, 0.0, 0.0, 0.0, 0.0, 0.0, 0.0) == 0.0
  {
  }

  function Parabola(t: real, c: real, n: real, aa: real, ab: real, bb: real): real {
    t * t * aa - 2.0 * t * ab + bb + n * (c * c)
  }

  lemma ExpandedBalanced(t: real, c: real, n: real, aa: real, ab: real, bb: real)
    ensures Expanded(-t, -c, n, aa, ab, bb, 0.0, 0.0) == Parabola(t, c, n, aa, ab, bb)
  {
  }

  lemma ExpandedStraight(t: real, n: real, aa: real, ab: real, bb: real, a: real, b: real)
    ensures Expanded(-t, 0.0, n, aa, ab, bb, a, b) == aa * (t * t) - 2.0 * t * ab + bb
  {
  }

  // ---- Least squares ----

  lemma Scaled(p: real, q: real, r: real, n: real, a: real, b: real)
    requires p > 0.0 && Expanded(-(r / p), 0.0, n, p, r, q, a, b) >= 0.0
    ensures Product(r, r) <= Product(p, q)
  {
    var t := r / p;
    ExpandedStraight(t, n, p, r, q, a, b);
    assert t * p == r;
    assert p * (t * t) == t * r;
    assert q >= t * r;
    assert p * q >= p * (t * r);
    assert p * (t * r) == r * r;
  }

  /** The Cauchy-Schwarz inequality. */
  lemma DotIsBounded(a: seq<real>, b: seq<real>)
    requires |a| == |b|
    ensures Product(Dot(a, b), Dot(a, b)) <= Product(Dot(a, a), Dot(b, b))
  {
    var p, q, r := Dot(a, a), Dot(b, b), Dot(a, b);
    DotSelf(a);
    if p > 0.0 {
      hide Dot, Combined, Expanded, Product;
      DotOfCombined(a, -(r / p), b, 0.0);
      DotSelf(Combined(a, -(r / p), b, 0.0));
      Scaled(p, q, r, |a| as real, Total(a), Total(b));
    } else {
      ZeroDot(a, b);
      ZeroProduct(r);
    }
  }

  lemma {:induction false} ZeroDot(a: seq<real>, b: seq<real>)
    requires |a| == |b| && Dot(a, a) <= 0.0
    ensures Dot(a, b) == 0.0
    ensures forall i | 0 <= i < |a| :: a[i] == 0.0
  {
    hide Product;
    if a != [] {
      var n := |a| - 1;
      DotSelf(a[..n]);
      Square(a[n]);
      ZeroDot(a[..n], b[..n]);
      ZeroProduct(b[n]);
    }
  }

  lemma ZeroProduct(y: real)
    ensures Product(0.0, y) == 0.0
  {
  }

  /** Numbers that are not all equal vary about their mean. */
  lemma SpreadIsPositive(a: seq<real>, i: nat, j: nat)
    requires i < |a| && j < |a| && a[i] != a[j]
    ensures Dot(Centred(a), Centred(a)) > 0.0
  {
    var d := Centred(a);
    assert d[i] != d[j];
    if Dot(d, d) <= 0.0 {
      ZeroDot(d, d);
    }
  }

  /** How far the line with a slope and an offset at the mean is from the points, squared and added up. */
  function Misfit(xs: seq<real>, ys: seq<real>, slope: real, offset: real): real
    requires |xs| == |ys| && xs != []
  {
    var rest := Combined(Centred(xs), -slope, Centred(ys), -offset);
    Dot(rest, rest)
  }

  function Slope(xs: seq<real>, ys: seq<real>): real
    requires |xs| == |ys| && xs != [] && Dot(Centred(xs), Centred(xs)) > 0.0
  {
    Dot(Centred(xs), Centred(ys)) / Dot(Centred(xs), Centred(xs))
  }

  lemma MisfitIs(xs: seq<real>, ys: seq<real>, slope: real, offset: real)
    requires |xs| == |ys| && xs != []
    ensures Misfit(xs, ys, slope, offset)
         == Parabola(slope, offset, |xs| as real, Dot(Centred(xs), Centred(xs)), Dot(Centred(xs), Centred(ys)), Dot(Centred(ys), Centred(ys)))
  {
    assert |Centred(xs)| == |xs| && |Centred(ys)| == |xs|;
    hide Dot, Centred, Combined, Expanded, Total, Parabola;
    CentredIsBalanced(xs);
    CentredIsBalanced(ys);
    DotOfCombined(Centred(xs), -slope, Centred(ys), -offset);
    ExpandedBalanced(slope, offset, |xs| as real, Dot(Centred(xs), Centred(xs)), Dot(Centred(xs), Centred(ys)), Dot(Centred(ys), Centred(ys)));
  }

  lemma BestOfParabola(p: real, r: real, q: real, n: real, t: real, c: real)
    requires p > 0.0 && n >= 0.0
    ensures Parabola(r / p, 0.0, n, p, r, q) <= Parabola(t, c, n, p, r, q)
  {
    var s := r / p;
    assert s * p == r;
    Square(t - s);
    assert (t - s) * (t - s) * p == t * t * p - 2.0 * t * (s * p) + s * (s * p);
    assert s * s * p == s * (s * p);
    NonNegative((t - s) * (t - s), p);
    Square(c);
    NonNegative(n, c * c);
  }

  lemma NonNegative(x: real, y: real)
    requires x >= 0.0 && y >= 0.0
    ensures x * y >= 0.0
  {
  }

  /** The fitted slope, through the mean point, leaves the least misfit of all lines. */
  lemma SlopeFitsBest(xs: seq<real>, ys: seq<real>, slope: real, offset: real)
    requires |xs| == |ys| && xs != [] && Dot(Centred(xs), Centred(xs)) > 0.0
    ensures Misfit(xs, ys, Slope(xs, ys), 0.0) <= Misfit(xs, ys, slope, offset)
  {
    assert |Centred(xs)| == |xs| && |Centred(ys)| == |xs|;
    hide Dot, Centred, Misfit, Parabola;
    MisfitIs(xs, ys, Slope(xs, ys), 0.0);
    MisfitIs(xs, ys, slope, offset);
    BestOfParabola(Dot(Centred(xs), Centred(xs)), Dot(Centred(xs), Centred(ys)), Dot(Centred(ys), Centred(ys)), |xs| as real, slope, offset);
  }

  // ---- The trend ----

  datatype Trend =
    | TooFewSamples
    | TooShortSpan
    | NotIncreasing(slope: real)
    | Unstable(slope: real, rSquared: real)
    | TooFarAhead(slope: real, rSquared: real)
    | Available(slope: real, rSquared: real, remaining: int)

  function Seconds(time: int): real { (time as real) / 1_000_000.0 }

  function Xs(points: seq<Point>): seq<real>
    requires points != []
  {
    seq(|points|, i requires 0 <= i < |points| => Seconds(points[i].at - points[0].at))
  }

  function Ys(points: seq<Point>): seq<real> {
    seq(|points|, i requires 0 <= i < |points| => points[i].value)
  }

  function Ceiling(x: real): int { -((-x).Floor) }

  function Clamped(x: real): real { Min(1.0, Max(0.0, x)) }

  predicate LongEnough(points: seq<Point>) {
    |points| >= MIN_SAMPLES && points[|points| - 1].at - points[0].at >= MIN_SPAN
  }

  function VarX(points: seq<Point>): real
    requires points != []
  {
    Dot(Centred(Xs(points)), Centred(Xs(points)))
  }

  function VarY(points: seq<Point>): real
    requires points != []
  {
    Dot(Centred(Ys(points)), Centred(Ys(points)))
  }

  function Covariance(points: seq<Point>): real
    requires points != []
  {
    Dot(Centred(Xs(points)), Centred(Ys(points)))
  }

  /** Points over a minute and more are not all at one time, so there is a slope. */
  lemma LongSpanVaries(points: seq<Point>)
    requires LongEnough(points)
    ensures VarX(points) > 0.0
  {
    assert Xs(points)[0] != Xs(points)[|points| - 1];
    SpreadIsPositive(Xs(points), 0, |points| - 1);
  }

  function Judge(slope: real, xx: real, yy: real, xy: real, current: real, target: real): Trend
    requires xx > 0.0
  {
    if slope <= 0.0 || yy == 0.0 then NotIncreasing(slope)
    else
      var rSquared := Clamped(Product(xy, xy) / Product(xx, yy));
      if rSquared < MIN_R_SQUARED then Unstable(slope, rSquared)
      else
        var remaining := (target - current) / slope;
        if remaining > MAX_REMAINING as real then TooFarAhead(slope, rSquared)
        else Available(slope, rSquared, MaxInt(0, Ceiling(remaining - SLACK)))
  }

  function TrendOf(points: seq<Point>, current: real, target: real): Trend {
    if |points| < MIN_SAMPLES then TooFewSamples
    else if !LongEnough(points) then TooShortSpan
    else
      LongSpanVaries(points);
      Judge(Slope(Xs(points), Ys(points)), VarX(points), VarY(points), Covariance(points), current, target)
  }

  /** Sums over the list, then sums of products about the means, then the branches. */
  method ProjectTrend(points: seq<Point>, current: real, target: real) returns (trend: Trend)
    ensures trend == TrendOf(points, current, target)
  {
    if |points| < MIN_SAMPLES {
      return TooFewSamples;
    }
    if points[|points| - 1].at - points[0].at < MIN_SPAN {
      return TooShortSpan;
    }
    var xs, ys := Xs(points), Ys(points);
    var sumX := Sum(xs);
    var sumY := Sum(ys);
    var dx, dy := Shift(xs, sumX / (|xs| as real)), Shift(ys, sumY / (|ys| as real));
    var xx := SumOfProducts(dx, dx);
    var yy := SumOfProducts(dy, dy);
    var xy := SumOfProducts(dx, dy);
    LongSpanVaries(points);
    var slope := xy / xx;
    trend := Judge(slope, xx, yy, xy, current, target);
  }

  method Sum(a: seq<real>) returns (total: real)
    ensures total == Total(a)
  {
    total := 0.0;
    for i := 0 to |a|
      invariant total == Total(a[..i])
    {
      assert a[..i + 1][..i] == a[..i];
      total := total + a[i];
    }
    assert a[..|a|] == a;
  }

  method SumOfProducts(a: seq<real>, b: seq<real>) returns (total: real)
    requires |a| == |b|
    ensures total == Dot(a, b)
  {
    hide Product;
    total := 0.0;
    for i := 0 to |a|
      invariant total == Dot(a[..i], b[..i])
    {
      assert a[..i + 1][..i] == a[..i] && b[..i + 1][..i] == b[..i];
      total := total + Product(a[i], b[i]);
    }
    assert a[..|a|] == a && b[..|b|] == b;
  }

  // ---- What the numbers mean ----

  lemma Ratio(x: real, y: real)
    requires 0.0 <= x <= y && y > 0.0
    ensures 0.0 <= x / y <= 1.0
  {
  }

  /** The share of explained variation is between 0 and 1 by itself; clamping it changes nothing. */
  lemma RSquaredIsAShare(points: seq<Point>)
    requires LongEnough(points) && VarY(points) > 0.0
    ensures VarX(points) > 0.0 && Product(VarX(points), VarY(points)) > 0.0
    ensures 0.0 <= Product(Covariance(points), Covariance(points)) / Product(VarX(points), VarY(points)) <= 1.0
    ensures var share := Product(Covariance(points), Covariance(points)) / Product(VarX(points), VarY(points));
            Clamped(share) == share
  {
    LongSpanVaries(points);
    PositiveProduct(VarX(points), VarY(points));
    assert |Centred(Xs(points))| == |Centred(Ys(points))|;
    DotIsBounded(Centred(Xs(points)), Centred(Ys(points)));
    Square(Covariance(points));
    hide Product, Dot, Centred;
    Ratio(Product(Covariance(points), Covariance(points)), Product(VarX(points), VarY(points)));
  }

  lemma PositiveProduct(x: real, y: real)
    requires x > 0.0 && y > 0.0
    ensures Product(x, y) > 0.0
  {
  }

  lemma CeilingIs(x: real)
    ensures Ceiling(x) as real >= x && (Ceiling(x) - 1) as real < x
  {
  }

  lemma DivideBound(gap: real, slope: real, k: real)
    requires slope > 0.0
    ensures k >= gap / slope - SLACK <==> slope * k >= gap - slope * SLACK
  {
    assert (gap / slope) * slope == gap;
    assert k >= gap / slope - SLACK ==> slope * k >= slope * (gap / slope - SLACK);
    assert k < gap / slope - SLACK ==> slope * k < slope * (gap / slope - SLACK);
    assert slope * (gap / slope - SLACK) == gap - slope * SLACK;
  }

  /** The fitted line, from the current load, has reached the target after so many seconds, but for the slack. */
  predicate Reached(current: real, target: real, slope: real, seconds: int) {
    current + slope * (seconds as real) >= target - slope * SLACK
  }

  /**
   * A forecast is made of at least three points over a minute or more with a rising, well fitting
   * slope; its seconds are the first whole ones at which the line has reached the target, within a day.
   */
  lemma ForecastIsFirstReach(points: seq<Point>, current: real, target: real, k: int)
    requires current < target && k >= 0
    requires TrendOf(points, current, target).Available?
    ensures var f := TrendOf(points, current, target);
            && LongEnough(points) && f.slope > 0.0 && MIN_R_SQUARED <= f.rSquared <= 1.0
            && 0 <= f.remaining <= MAX_REMAINING
            && (Reached(current, target, f.slope, k) <==> k >= f.remaining)
  {
    LongSpanVaries(points);
    hide Dot, Centred, Xs, Ys, Product, Slope, Ceiling;
    var f := TrendOf(points, current, target);
    var remaining := (target - current) / f.slope;
    CeilingIs(remaining - SLACK);
    CeilingBound(remaining - SLACK, k);
    CeilingBound(remaining - SLACK, MAX_REMAINING);
    DivideBound(target - current, f.slope, k as real);
  }

  lemma CeilingBound(x: real, k: int)
    ensures k as real >= x <==> k >= Ceiling(x)
  {
    CeilingIs(x);
  }

  /** A positive slope means the values vary: the second half of the test for an increase never decides. */
  lemma RisingVaries(points: seq<Point>)
    requires LongEnough(points) && VarX(points) > 0.0 && Slope(Xs(points), Ys(points)) > 0.0
    ensures VarY(points) > 0.0
  {
    assert |Centred(Xs(points))| == |Centred(Ys(points))|;
    DotSelf(Centred(Ys(points)));
    DotIsBounded(Centred(Xs(points)), Centred(Ys(points)));
    Square(Covariance(points));
    if VarY(points) == 0.0 {
      ZeroTimes(VarX(points));
    }
  }

  lemma ZeroTimes(x: real)
    ensures Product(x, 0.0) == 0.0
  {
  }

  // ---- When a forecast is made ----

  function FittedSlope(points: seq<Point>): real
    requires LongEnough(points)
  {
    LongSpanVaries(points);
    Slope(Xs(points), Ys(points))
  }

  /** The best line misses the points by no more than a fifth of what they vary by. */
  predicate FitsWell(points: seq<Point>)
    requires LongEnough(points)
  {
    Misfit(Xs(points), Ys(points), FittedSlope(points), 0.0) <= 0.2 * VarY(points)
  }

  /** What the best line leaves is what it does not explain. */
  lemma ShareLeft(xx: real, xy: real, yy: real, n: real)
    requires xx > 0.0 && yy > 0.0 && Product(xx, yy) > 0.0
    ensures Parabola(xy / xx, 0.0, n, xx, xy, yy) == (1.0 - Product(xy, xy) / Product(xx, yy)) * yy
  {
    var (t, share) := (xy / xx, xy * xy / (xx * yy));
    assert t * xx == xy;
    assert t * t * xx == t * (t * xx);
    assert (share * yy) * xx == xy * xy && (t * xy) * xx == xy * xy;
    assert share * yy == t * xy by { CancelFactor(share * yy, t * xy, xx); }
  }

  lemma CancelFactor(a: real, b: real, x: real)
    requires x > 0.0 && a * x == b * x
    ensures a == b
  {
    assert (a - b) * x == 0.0;
  }

  lemma FifthIsShare(share: real, yy: real)
    requires yy > 0.0
    ensures share >= 0.8 <==> (1.0 - share) * yy <= 0.2 * yy
  {
    assert (0.2 - (1.0 - share)) * yy == 0.2 * yy - (1.0 - share) * yy;
    if share > 0.8 { PositiveProduct(share - 0.8, yy); }
    if share < 0.8 { PositiveProduct(0.8 - share, yy); }
  }

  lemma FitIsShare(points: seq<Point>)
    requires LongEnough(points) && VarX(points) > 0.0 && FittedSlope(points) > 0.0
    ensures VarY(points) > 0.0 && Product(VarX(points), VarY(points)) > 0.0
    ensures var share := Clamped(Product(Covariance(points), Covariance(points)) / Product(VarX(points), VarY(points)));
            && (share >= 0.8 <==> FitsWell(points))
            && Misfit(Xs(points), Ys(points), FittedSlope(points), 0.0) == (1.0 - share) * VarY(points)
  {
    RisingVaries(points);
    RSquaredIsAShare(points);
    hide Dot, Centred, Xs, Ys, Product, Parabola, Misfit, Clamped;
    MisfitIs(Xs(points), Ys(points), FittedSlope(points), 0.0);
    ShareLeft(VarX(points), Covariance(points), VarY(points), |Xs(points)| as real);
    FifthIsShare(Product(Covariance(points), Covariance(points)) / Product(VarX(points), VarY(points)), VarY(points));
  }

  lemma DividedWithin(gap: real, slope: real, limit: real)
    requires slope > 0.0
    ensures gap / slope > limit <==> gap > slope * limit
  {
    assert (gap / slope) * slope == gap;
    assert (gap / slope - limit) * slope == gap - slope * limit;
    if gap / slope > limit { PositiveProduct(gap / slope - limit, slope); }
    if gap / slope < limit { PositiveProduct(limit - gap / slope, slope); }
  }

  /** The judgement for points over a minute or more. */
  predicate JudgedRight(trend: Trend, points: seq<Point>, current: real, target: real)
    requires LongEnough(points)
  {
    var slope := FittedSlope(points);
    if slope <= 0.0 then trend == NotIncreasing(slope)
    else if !FitsWell(points) then trend.Unstable? && trend.slope == slope
    else if current + slope * 86400.0 < target then trend.TooFarAhead? && trend.slope == slope
    else
      && trend.Available? && trend.slope == slope && (current >= target ==> trend.remaining == 0)
      && Misfit(Xs(points), Ys(points), slope, 0.0) == (1.0 - trend.rSquared) * VarY(points)
  }

  /**
   * A forecast is made exactly for three points or more, over a minute or more, whose best line rises, misses them by no
   * more than a fifth of their variation, and from the current load reaches the target within a day; otherwise
   * the first of these that fails is named.
   */
  lemma TrendIsExact(points: seq<Point>, current: real, target: real)
    ensures var trend := TrendOf(points, current, target);
            && (trend == TooFewSamples <==> |points| < 3)
            && (trend == TooShortSpan <==> |points| >= 3 && points[|points| - 1].at - points[0].at < 60 * SECOND)
            && (|points| >= 3 && points[|points| - 1].at - points[0].at >= 60 * SECOND ==>
                  LongEnough(points) && JudgedRight(trend, points, current, target))
  {
    if LongEnough(points) {
      LongSpanVaries(points);
      var slope := FittedSlope(points);
      hide Dot, Centred, Xs, Ys, Product, Slope, Misfit, FitsWell, Ceiling, Clamped;
      if slope > 0.0 {
        FitIsShare(points);
        DividedWithin(target - current, slope, 86400.0);
        CeilingBound((target - current) / slope - SLACK, 0);
        DividedWithin(target - current, slope, 0.0);
      }
    }
  }
}
