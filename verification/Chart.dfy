/** gui/src/ui/controller/logs.rs: the monotone cubic traffic chart and the usage donut, over reals. */
module Chart {
  import opened Common
  import opened Traffic

  const SCALE_FLOOR: real := 1024.0

  datatype Point = Point(x: real, y: real)

  /** A cubic Bézier segment: end points and the two control points between them. */
  datatype Segment = Segment(start: Point, c1: Point, c2: Point, end: Point)

  function Slope(values: seq<real>, i: nat): real
    requires i + 1 < |values|
  {
    values[i + 1] - values[i]
  }

  /** Harmonic mean of the neighbouring slopes, 0 at a local extreme, the only slope at an end. */
  function Tangent(values: seq<real>, i: nat): real
    requires i < |values|
  {
    var before := if i > 0 then Some(Slope(values, i - 1)) else None;
    var after := if i + 1 < |values| then Some(Slope(values, i)) else None;
    match (before, after)
    case (Some(b), Some(a)) => if b * a > 0.0 then Harmonic(b, a) else 0.0
    case (None, Some(only)) => only
    case (Some(only), None) => only
    case (None, None) => 0.0
  }

  function Harmonic(b: real, a: real): real
    requires b * a > 0.0
  {
    SameSign(b, a);
    2.0 * b * a / (b + a)
  }

  lemma SameSign(b: real, a: real)
    requires b * a > 0.0
    ensures (b > 0.0 && a > 0.0) || (b < 0.0 && a < 0.0)
  {}

  /** `monotone_segments`. */
  function MonotoneSegments(values: seq<real>): (segments: seq<Segment>)
    ensures |segments| == if values == [] then 0 else |values| - 1
  {
    seq(if values == [] then 0 else |values| - 1, i requires 0 <= i < |values| - 1 => SegmentAt(values, i))
  }

  function SegmentAt(values: seq<real>, i: nat): Segment
    requires i + 1 < |values|
  {
    var x := i as real;
    var (from, to) := (values[i], values[i + 1]);
    Segment(Point(x, from), Point(x + 1.0 / 3.0, from + Tangent(values, i) / 3.0),
            Point(x + 2.0 / 3.0, to - Tangent(values, i + 1) / 3.0), Point(x + 1.0, to))
  }

  /** The cubic Bézier polynomial in one coordinate. */
  function Bezier(p0: real, p1: real, p2: real, p3: real, t: real): real {
    var r := 1.0 - t;
    r * r * r * p0 + 3.0 * (r * r * t) * p1 + 3.0 * (r * t * t) * p2 + t * t * t * p3
  }

  function Height(s: Segment, t: real): real { Bezier(s.start.y, s.c1.y, s.c2.y, s.end.y, t) }

  function Across(s: Segment, t: real): real { Bezier(s.start.x, s.c1.x, s.c2.x, s.end.x, t) }

  // ---------------------------------------------------------------- tangents

  /** A tangent has the direction of the slope and is at most twice as steep. */
  predicate AtMostTwice(m: real, slope: real) {
    (0.0 <= m <= 2.0 * slope) || (2.0 * slope <= m <= 0.0)
  }

  lemma HarmonicBound(b: real, a: real)
    requires b > 0.0 && a > 0.0
    ensures 0.0 < Harmonic(b, a) <= 2.0 * a && Harmonic(b, a) <= 2.0 * b
  {
    var h, d := Harmonic(b, a), b + a;
    Cancel(2.0 * b * a, d);
    assert h * d == 2.0 * b * a;
    assert 2.0 * a * d == 2.0 * b * a + 2.0 * a * a;
    assert 2.0 * b * d == 2.0 * b * b + 2.0 * b * a;
    DivideOut(h, 2.0 * a, d);
    DivideOut(h, 2.0 * b, d);
    Above(h, d);
  }

  lemma Above(m: real, d: real)
    requires d > 0.0 && m * d > 0.0
    ensures m > 0.0
  {}

  lemma Cancel(n: real, d: real)
    requires d != 0.0
    ensures n / d * d == n
  {}

  lemma DivideOut(m: real, n: real, d: real)
    requires d > 0.0 && m * d <= n * d
    ensures m <= n
  {}

  lemma HarmonicNegates(b: real, a: real)
    requires b < 0.0 && a < 0.0
    ensures b * a > 0.0 && (-b) * (-a) > 0.0 && Harmonic(b, a) == -Harmonic(-b, -a)
  {}

  lemma TangentBound(values: seq<real>, i: nat)
    requires i < |values|
    ensures i > 0 ==> AtMostTwice(Tangent(values, i), Slope(values, i - 1))
    ensures i + 1 < |values| ==> AtMostTwice(Tangent(values, i), Slope(values, i))
  {
    if 0 < i && i + 1 < |values| {
      var b, a := Slope(values, i - 1), Slope(values, i);
      if b * a > 0.0 {
        SameSign(b, a);
        if b > 0.0 {
          HarmonicBound(b, a);
        } else {
          HarmonicNegates(b, a);
          HarmonicBound(-b, -a);
        }
      }
    }
  }

  // ---------------------------------------------------------------- one segment

  /** A segment in terms of its slope and its two tangents divided by it. */
  function Shape(a: real, b: real, t: real): real {
    a * (t * (1.0 - t) * (1.0 - t)) + (3.0 - b) * (t * t * (1.0 - t)) + t * t * t
  }

  lemma HeightIsShape(y: real, s: real, a: real, b: real, t: real)
    ensures Bezier(y, y + a * s / 3.0, y + s - b * s / 3.0, y + s, t) == y + s * Shape(a, b, t)
  {}

  /** At the corners of the tangent square the shape is one of four polynomials, each increasing on [0, 1]. */
  lemma CornersIncrease(t: real, u: real)
    requires 0.0 <= t <= u <= 1.0
    ensures Shape(0.0, 0.0, t) <= Shape(0.0, 0.0, u)
    ensures Shape(2.0, 0.0, t) <= Shape(2.0, 0.0, u)
    ensures Shape(0.0, 2.0, t) <= Shape(0.0, 2.0, u)
    ensures Shape(2.0, 2.0, t) <= Shape(2.0, 2.0, u)
  {
    CornerForms(t);
    CornerForms(u);
    Corner00(t, u);
    Corner20(t, u);
    Corner02(t, u);
    Corner22(t, u);
  }

  lemma CornerForms(t: real)
    ensures Shape(0.0, 0.0, t) == 3.0 * (t * t) - 2.0 * (t * t * t)
    ensures Shape(2.0, 0.0, t) == 2.0 * t - t * t
    ensures Shape(0.0, 2.0, t) == t * t
    ensures Shape(2.0, 2.0, t) == 2.0 * t - 3.0 * (t * t) + 2.0 * (t * t * t)
  {}

  lemma Cubes(t: real, u: real)
    ensures u * u - t * t == (u - t) * (u + t)
    ensures u * u * u - t * t * t == (u - t) * (u * u + u * t + t * t)
  {}

  lemma NonNegativeProduct(a: real, b: real)
    requires a >= 0.0 && b >= 0.0
    ensures a * b >= 0.0
  {}

  lemma Corner00(t: real, u: real)
    requires 0.0 <= t <= u <= 1.0
    ensures 3.0 * (t * t) - 2.0 * (t * t * t) <= 3.0 * (u * u) - 2.0 * (u * u * u)
  {
    Cubes(t, u);
    NonNegativeProduct(u, 1.0 - u);
    NonNegativeProduct(t, 1.0 - t);
    NonNegativeProduct(u, 1.0 - t);
    NonNegativeProduct(t, 1.0 - u);
    var q := 3.0 * (u + t) - 2.0 * (u * u + u * t + t * t);
    assert q >= 0.0;
    NonNegativeProduct(u - t, q);
    assert (u - t) * q == 3.0 * ((u - t) * (u + t)) - 2.0 * ((u - t) * (u * u + u * t + t * t));
  }

  lemma Corner20(t: real, u: real)
    requires 0.0 <= t <= u <= 1.0
    ensures 2.0 * t - t * t <= 2.0 * u - u * u
  {}

  lemma Corner02(t: real, u: real)
    requires 0.0 <= t <= u <= 1.0
    ensures t * t <= u * u
  {}

  lemma Corner22(t: real, u: real)
    requires 0.0 <= t <= u <= 1.0
    ensures 2.0 * t - 3.0 * (t * t) + 2.0 * (t * t * t) <= 2.0 * u - 3.0 * (u * u) + 2.0 * (u * u * u)
  {
    Cubes(t, u);
    var s := u + t;
    NonNegativeProduct(u - t, u - t);
    assert (u - t) * (u - t) == u * u - 2.0 * (u * t) + t * t;
    assert s * s == u * u + 2.0 * (u * t) + t * t;
    assert u * u + u * t + t * t >= 0.75 * (s * s);
    assert (s - 1.0) * (s - 1.0) == s * s - 2.0 * s + 1.0;
    Square(s - 1.0);
    var q := 2.0 - 3.0 * s + 2.0 * (u * u + u * t + t * t);
    assert q >= 0.0;
    NonNegativeProduct(u - t, q);
    assert (u - t) * q == 2.0 * (u - t) - 3.0 * ((u - t) * s) + 2.0 * ((u - t) * (u * u + u * t + t * t));
  }

  lemma Square(a: real)
    ensures a * a >= 0.0
  {}

  /** The shape is affine in both tangents, so it increases everywhere in the square. */
  lemma ShapeIncreases(a: real, b: real, t: real, u: real)
    requires 0.0 <= a <= 2.0 && 0.0 <= b <= 2.0 && 0.0 <= t <= u <= 1.0
    ensures Shape(a, b, t) <= Shape(a, b, u)
  {
    hide Shape;
    CornersIncrease(t, u);
    Affine(a, b, t);
    Affine(a, b, u);
    var d00 := Shape(0.0, 0.0, u) - Shape(0.0, 0.0, t);
    var d20 := Shape(2.0, 0.0, u) - Shape(2.0, 0.0, t);
    var d02 := Shape(0.0, 2.0, u) - Shape(0.0, 2.0, t);
    LastCorner(t);
    LastCorner(u);
    Blend(a / 2.0, b / 2.0, d00, d20, d02);
    Regroup(a / 2.0, Shape(2.0, 0.0, u), Shape(0.0, 0.0, u), Shape(2.0, 0.0, t), Shape(0.0, 0.0, t));
    Regroup(b / 2.0, Shape(0.0, 2.0, u), Shape(0.0, 0.0, u), Shape(0.0, 2.0, t), Shape(0.0, 0.0, t));
  }

  lemma LastCorner(t: real)
    ensures Shape(2.0, 2.0, t) == Shape(2.0, 0.0, t) + Shape(0.0, 2.0, t) - Shape(0.0, 0.0, t)
  {
    CornerForms(t);
  }

  lemma Regroup(x: real, p: real, q: real, r: real, s: real)
    ensures x * (p - q) - x * (r - s) == x * ((p - r) - (q - s))
  {}

  lemma Affine(a: real, b: real, t: real)
    ensures Shape(a, b, t) == Shape(0.0, 0.0, t) + (a / 2.0) * (Shape(2.0, 0.0, t) - Shape(0.0, 0.0, t))
                              + (b / 2.0) * (Shape(0.0, 2.0, t) - Shape(0.0, 0.0, t))
  {}

  lemma Blend(x: real, y: real, d00: real, d20: real, d02: real)
    requires 0.0 <= x <= 1.0 && 0.0 <= y <= 1.0
    requires d00 >= 0.0 && d20 >= 0.0 && d02 >= 0.0 && d20 + d02 - d00 >= 0.0
    ensures d00 + x * (d20 - d00) + y * (d02 - d00) >= 0.0
  {
    Mix(x, d00, d20);
    Mix(x, d02, d20 + d02 - d00);
    Mix(y, d00 + x * (d20 - d00), d02 + x * (d20 - d00));
  }

  lemma Mix(t: real, p: real, q: real)
    requires 0.0 <= t <= 1.0 && p >= 0.0 && q >= 0.0
    ensures p + t * (q - p) >= 0.0
  {
    NonNegativeProduct(1.0 - t, p);
    NonNegativeProduct(t, q);
    assert p + t * (q - p) == (1.0 - t) * p + t * q;
  }

  /** A Bézier segment with tangents at most twice its slope moves one way only. */
  lemma SegmentMonotone(y: real, s: real, m0: real, m1: real, t: real, u: real)
    requires AtMostTwice(m0, s) && AtMostTwice(m1, s) && 0.0 <= t <= u <= 1.0
    ensures var (h, k) := (Bezier(y, y + m0 / 3.0, y + s - m1 / 3.0, y + s, t),
                           Bezier(y, y + m0 / 3.0, y + s - m1 / 3.0, y + s, u));
            (s >= 0.0 ==> h <= k) && (s <= 0.0 ==> h >= k)
  {
    var a, b := Ratio(m0, s), Ratio(m1, s);
    RatioLaw(m0, s);
    RatioLaw(m1, s);
    HeightIsShape(y, s, a, b, t);
    HeightIsShape(y, s, a, b, u);
    ShapeIncreases(a, b, t, u);
    var gain := Shape(a, b, u) - Shape(a, b, t);
    hide Shape, Bezier;
    if s >= 0.0 { NonNegativeProduct(s, gain); } else { NonNegativeProduct(-s, gain); }
    assert s * Shape(a, b, u) - s * Shape(a, b, t) == s * gain;
  }

  function Ratio(m: real, s: real): real { if s == 0.0 then 0.0 else m / s }

  lemma RatioLaw(m: real, s: real)
    requires AtMostTwice(m, s)
    ensures 0.0 <= Ratio(m, s) <= 2.0 && Ratio(m, s) * s == m
  {
    if s != 0.0 {
      Cancel(m, s);
      var r := m / s;
      if s > 0.0 {
        DivideOut(0.0, r, s);
        DivideOut(r, 2.0, s);
      } else {
        assert r * -s == -(r * s) == -m;
        DivideOut(0.0, r, -s);
        DivideOut(r, 2.0, -s);
      }
    }
  }

  // ---------------------------------------------------------------- the curve

  /** The curve passes through every sample. */
  lemma CurveMeetsTheSamples(values: seq<real>, i: nat)
    requires i + 1 < |values|
    ensures var s := MonotoneSegments(values)[i];
            && Height(s, 0.0) == values[i] && Across(s, 0.0) == i as real
            && Height(s, 1.0) == values[i + 1] && Across(s, 1.0) == i as real + 1.0
  {
    var s := MonotoneSegments(values)[i];
    BezierEnds(s.start.x, s.c1.x, s.c2.x, s.end.x);
    BezierEnds(s.start.y, s.c1.y, s.c2.y, s.end.y);
    hide Bezier, Tangent;
  }

  /** Between two samples the curve moves from one to the other without turning back. */
  lemma CurveIsMonotone(values: seq<real>, i: nat, t: real, u: real)
    requires i + 1 < |values| && 0.0 <= t <= u <= 1.0
    ensures var s := MonotoneSegments(values)[i];
            && (values[i] <= values[i + 1] ==> Height(s, t) <= Height(s, u))
            && (values[i] >= values[i + 1] ==> Height(s, t) >= Height(s, u))
  {
    TangentBound(values, i);
    TangentBound(values, i + 1);
    hide Tangent, AtMostTwice, Bezier;
    SegmentMonotone(values[i], Slope(values, i), Tangent(values, i), Tangent(values, i + 1), t, u);
  }

  lemma BezierEnds(p0: real, p1: real, p2: real, p3: real)
    ensures Bezier(p0, p1, p2, p3, 0.0) == p0 && Bezier(p0, p1, p2, p3, 1.0) == p3
  {}

  /** The curve never overshoots: every point of a segment lies between the two samples it joins. */
  lemma CurveStaysBetween(values: seq<real>, i: nat, t: real)
    requires i + 1 < |values| && 0.0 <= t <= 1.0
    ensures var h := Height(MonotoneSegments(values)[i], t);
            values[i] <= h <= values[i + 1] || values[i + 1] <= h <= values[i]
  {
    CurveIsMonotone(values, i, 0.0, t);
    CurveIsMonotone(values, i, t, 1.0);
    var s := MonotoneSegments(values)[i];
    BezierEnds(s.start.y, s.c1.y, s.c2.y, s.end.y);
    hide Bezier, MonotoneSegments;
  }

  /** Time runs evenly: a segment crosses its slot at constant speed. */
  lemma CurveRunsEvenly(values: seq<real>, i: nat, t: real)
    requires i + 1 < |values|
    ensures Across(MonotoneSegments(values)[i], t) == i as real + t
  {}

  /** Neighbouring segments meet in the sample with one common tangent: the curve has no corners. */
  lemma CurveIsSmooth(values: seq<real>, i: nat)
    requires i + 2 < |values|
    ensures var a, b := MonotoneSegments(values)[i], MonotoneSegments(values)[i + 1];
            && a.end == b.start && a.end.y == values[i + 1]
            && a.end.y - a.c2.y == b.c1.y - b.start.y && a.end.x - a.c2.x == b.c1.x - b.start.x
  {
    hide Tangent;
  }

  /** At a local extreme the curve is flat, and at no interior sample between two rises or two falls. */
  lemma FlatExactlyAtExtremes(values: seq<real>, i: nat)
    requires i + 2 < |values|
    ensures var a, b := MonotoneSegments(values)[i], MonotoneSegments(values)[i + 1];
            var y := values[i + 1];
            && (a.c2.y == y <==> (values[i] <= y && values[i + 2] <= y) || (values[i] >= y && values[i + 2] >= y))
            && (a.c2.y == y <==> b.c1.y == y)
  {}

  // ---------------------------------------------------------------- the traffic chart

  function Clamp(v: real): real { if v < 0.0 then 0.0 else if v > 1.0 then 1.0 else v }

  function Scale(s: Snapshot): real { MaxReal(MaxReal(s.peakDown, s.peakUp), SCALE_FLOOR) }

  /** Right-aligned heights: zeros, then the samples relative to the scale. */
  function Series(samples: seq<Speed>, pick: Speed -> real, scale: real): (v: seq<real>)
    requires |samples| <= HISTORY && scale > 0.0
    ensures |v| == HISTORY
  {
    seq(HISTORY - |samples|, i => 0.0)
        + seq(|samples|, i requires 0 <= i < |samples| => Clamp(pick(samples[i]) / scale))
  }

  function Down(s: Speed): real { s.down }

  function Up(s: Speed): real { s.up }

  /** `chart_curves`: download, then upload. */
  function ChartCurves(s: Snapshot): (seq<Segment>, seq<Segment>) {
    var samples := LastOf(s.samples);
    if |samples| < 2 then ([], [])
    else (MonotoneSegments(Series(samples, Down, Scale(s))), MonotoneSegments(Series(samples, Up, Scale(s))))
  }

  ghost predicate InView(segments: seq<Segment>) {
    forall i, t: real | 0 <= i < |segments| && 0.0 <= t <= 1.0 :: 0.0 <= Height(segments[i], t) <= 1.0
  }

  lemma SeriesInView(samples: seq<Speed>, pick: Speed -> real, scale: real)
    requires |samples| <= HISTORY && scale > 0.0
    ensures InView(MonotoneSegments(Series(samples, pick, scale)))
  {
    var v := Series(samples, pick, scale);
    assert forall i | 0 <= i < |v| :: 0.0 <= v[i] <= 1.0;
    hide Series, Height;
    forall i, t: real | 0 <= i < |MonotoneSegments(v)| && 0.0 <= t <= 1.0
      ensures 0.0 <= Height(MonotoneSegments(v)[i], t) <= 1.0
    {
      CurveStaysBetween(v, i, t);
    }
  }

  /** For every snapshot both curves have 59 segments, or none with fewer than two samples, and stay inside the
      viewbox. */
  lemma ChartStaysInView(s: Snapshot)
    ensures var (down, up) := ChartCurves(s);
            && |down| == |up| == (if |s.samples| < 2 then 0 else HISTORY - 1)
            && InView(down) && InView(up)
  {
    if |s.samples| >= 2 {
      SeriesInView(LastOf(s.samples), Down, Scale(s));
      SeriesInView(LastOf(s.samples), Up, Scale(s));
    }
    hide Series, Height;
  }

  /** The k-th sample from the right ends exactly at its share of the scale; slots before the first lie on the
      baseline. */
  ghost predicate ShowsSample(s: Snapshot, k: nat)
    requires k < HISTORY - 1
  {
    var (down, up) := ChartCurves(s);
    var i := |s.samples| - 1 - k;
    && |down| == |up| == HISTORY - 1
    && if i >= 0 then
         && down[HISTORY - 2 - k].end.y == s.samples[i].down / Scale(s)
         && up[HISTORY - 2 - k].end.y == s.samples[i].up / Scale(s)
       else down[HISTORY - 2 - k].end.y == up[HISTORY - 2 - k].end.y == 0.0
  }

  /** In every snapshot of the monitor nothing is clamped. */
  lemma ChartShowsTheSamples(es: seq<Event>, k: nat)
    requires 2 <= |Run(es).samples| && k < HISTORY - 1
    ensures ShowsSample(SnapshotOf(Run(es)), k)
  {
    hide Run, Recorded, PeakUp, PeakDown, ShowsSample, LastOf;
    HistoryIsTheLastSixty(es);
    PeaksAreMaxima(Run(es).samples);
    SnapshotIsShown(SnapshotOf(Run(es)), k);
  }

  lemma SnapshotIsShown(s: Snapshot, k: nat)
    requires 2 <= |s.samples| <= HISTORY && k < HISTORY - 1
    requires forall i | 0 <= i < |s.samples| ::
               0.0 <= s.samples[i].up <= s.peakUp && 0.0 <= s.samples[i].down <= s.peakDown
    ensures ShowsSample(s, k)
  {
    assert LastOf(s.samples) == s.samples;
    var i := |s.samples| - 1 - k;
    if i >= 0 {
      Share(s.samples[i].down, Scale(s));
      Share(s.samples[i].up, Scale(s));
    }
    SeriesAt(s.samples, Down, Scale(s), HISTORY - 1 - k);
    SeriesAt(s.samples, Up, Scale(s), HISTORY - 1 - k);
    hide Series, Tangent, Scale;
  }

  lemma SeriesAt(samples: seq<Speed>, pick: Speed -> real, scale: real, j: nat)
    requires |samples| <= HISTORY && scale > 0.0 && j < HISTORY
    ensures var pad := HISTORY - |samples|;
            Series(samples, pick, scale)[j] == if j < pad then 0.0 else Clamp(pick(samples[j - pad]) / scale)
  {}

  lemma Share(v: real, scale: real)
    requires 0.0 <= v <= scale && scale > 0.0
    ensures 0.0 <= v / scale <= 1.0
  {}

  // ---------------------------------------------------------------- the donut

  const DONUT_GAP: real := 0.12
  const DONUT_MIN_SWEEP: real := 0.06

  datatype Sweep = Sweep(start: real, end: real)

  function ClampTo(v: real, lo: real, hi: real): real { if v < lo then lo else if v > hi then hi else v }

  /** `donut_sweeps`; `tau` is the full circle. */
  function DonutSweeps(tau: real, down: nat, up: nat): (Option<Sweep>, Option<Sweep>) {
    if down == 0 && up == 0 then (None, None)
    else if up == 0 then (Some(Sweep(0.0, tau)), None)
    else if down == 0 then (None, Some(Sweep(0.0, tau)))
    else
      var reserve := DONUT_GAP + DONUT_MIN_SWEEP;
      var share := down as real / (down as real + up as real);
      var split := ClampTo(tau * share, reserve, tau - reserve);
      var half := DONUT_GAP / 2.0;
      (Some(Sweep(half, split - half)), Some(Sweep(split + half, tau - half)))
  }

  /** Two shares: both visible, exactly one gap between them and one at the top, and the larger total has the longer
      arc. */
  lemma DonutIsDivided(tau: real, down: nat, up: nat)
    requires 6.28 < tau < 6.29 && down > 0 && up > 0
    ensures var (d, u) := DonutSweeps(tau, down, up);
            && d.Some? && u.Some?
            && d.value.end - d.value.start >= DONUT_MIN_SWEEP && u.value.end - u.value.start >= DONUT_MIN_SWEEP
            && u.value.start - d.value.end == DONUT_GAP && tau - u.value.end + d.value.start == DONUT_GAP
            && (down >= up <==> d.value.end - d.value.start >= u.value.end - u.value.start)
  {
    var x, y := down as real, up as real;
    var share := x / (x + y);
    Cancel(x, x + y);
    HalfShare(share, x, y);
    assert tau * share >= tau / 2.0 <==> share >= 0.5 by {
      if share >= 0.5 { NonNegativeProduct(tau, share - 0.5); } else { assert tau * (0.5 - share) > 0.0; }
      assert tau * (share - 0.5) == tau * share - tau / 2.0;
    }
  }

  lemma HalfShare(share: real, x: real, y: real)
    requires x > 0.0 && y > 0.0 && share * (x + y) == x
    ensures share >= 0.5 <==> x >= y
  {}
}
