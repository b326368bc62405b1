/**
 allan_deviation of src/cal_math.c: the overlapping Allan deviation computed from a running
 integral, against its definition by differences of adjacent cluster means (Annex C of IEEE
 Std 952-1997).
 */
module Allan {
  import opened FusionMath
  import opened Sums

  /** Sum of x[a..b]. */
  function Span(x: seq<real>, a: nat, b: nat): real
    requires a <= b <= |x|
    decreases b - a
  {
    if a == b then 0.0 else Span(x, a, b - 1) + x[b - 1]
  }

  /** Mean of the m samples from k. */
  function ClusterMean(x: seq<real>, k: nat, m: nat): real
    requires m > 0 && k + m <= |x|
  {
    Span(x, k, k + m) / m as real
  }

  /** Squared difference of the cluster at k and the one after it. */
  function StepSquared(x: seq<real>, m: nat, k: int): real
    requires m > 0
  {
    if 0 <= k && k + 2 * m <= |x| then Sq(ClusterMean(x, k + m, m) - ClusterMean(x, k, m)) else 0.0
  }

  function Steps(x: seq<real>, m: nat): int -> real
    requires m > 0
  {
    k => StepSquared(x, m, k)
  }

  /** The overlapping Allan variance at cluster size m: half the mean squared step. */
  function AllanVariance(x: seq<real>, m: nat): real
    requires m > 0 && 2 * m <= |x|
  {
    Sum(|x| - 2 * m + 1, Steps(x, m)) / (2.0 * (|x| - 2 * m + 1) as real)
  }

  datatype Point = Point(tau: real, adev: real)

  function Octave(j: nat): (m: nat)
    ensures m > 0
  {
    if j == 0 then 1 else 2 * Octave(j - 1)
  }

  lemma {:induction false} SpanAdd(x: seq<real>, a: nat, b: nat, c: nat)
    requires a <= b <= c <= |x|
    ensures Span(x, a, c) == Span(x, a, b) + Span(x, b, c)
    decreases c - b
  {
    if b < c { SpanAdd(x, a, b, c - 1); }
  }

  /** theta: the running integral of the signal. */
  method Integrate(x: seq<real>, dt: real) returns (theta: array<real>)
    ensures fresh(theta) && theta.Length == |x| + 1
    ensures forall k :: 0 <= k <= |x| ==> theta[k] == Prod(dt, Span(x, 0, k))
  {
    hide Prod;
    theta := new real[|x| + 1];
    theta[0] := 0.0;
    ProdLaws(dt, 0.0, 0.0);
    for k := 0 to |x|
      invariant forall i :: 0 <= i <= k ==> theta[i] == Prod(dt, Span(x, 0, i))
    {
      ProdLaws(dt, Span(x, 0, k), x[k]);
      theta[k + 1] := theta[k] + Prod(x[k], dt);
    }
  }

  lemma ProdLaws(a: real, b: real, c: real)
    ensures Prod(a, 0.0) == 0.0 && Prod(a, b + c) == Prod(a, b) + Prod(a, c) && Prod(c, a) == Prod(a, c)
  {}

  /** The second difference of the integral is tau times the step between cluster means. */
  lemma SecondDifference(x: seq<real>, k: nat, m: nat, dt: real, tau: real)
    requires m > 0 && k + 2 * m <= |x| && tau == Prod(m as real, dt)
    ensures Prod(dt, Span(x, 0, k + 2 * m)) - 2.0 * Prod(dt, Span(x, 0, k + m)) + Prod(dt, Span(x, 0, k))
         == Prod(tau, ClusterMean(x, k + m, m) - ClusterMean(x, k, m))
  {
    hide Span;
    SpanAdd(x, 0, k, k + m);
    SpanAdd(x, 0, k + m, k + 2 * m);
    var s0, s1, s2 := Span(x, 0, k), Span(x, k, k + m), Span(x, k + m, k + 2 * m);
    MeanStep(s0, s1, s2, m as real, dt, tau, s1 / m as real, s2 / m as real);
  }

  lemma MeanStep(s0: real, s1: real, s2: real, m: real, dt: real, tau: real, m1: real, m2: real)
    requires m != 0.0 && tau == Prod(m, dt) && m1 == s1 / m && m2 == s2 / m
    ensures Prod(dt, s0 + s1 + s2) - 2.0 * Prod(dt, s0 + s1) + Prod(dt, s0) == Prod(tau, m2 - m1)
  {
    assert s1 == m1 * m && s2 == m2 * m;
    assert Prod(dt, s0 + s1 + s2) - 2.0 * Prod(dt, s0 + s1) + Prod(dt, s0) == dt * (s2 - s1);
    Regroup(dt, m, m1, m2);
  }

  lemma Regroup(dt: real, m: real, m1: real, m2: real)
    ensures dt * (m2 * m - m1 * m) == (m * dt) * (m2 - m1)
  {}

  /** The divisor the source applies to the sum of squared second differences. */
  function Spread(sum: real, tau: real, terms: real): real
    requires tau != 0.0 && terms > 0.0
  {
    SqPositive(tau);
    assert PositiveProduct(Sq(tau), terms) > 0.0;
    sum / (2.0 * (Sq(tau) * terms))
  }

  /** The mean squared second difference, over tau squared, is the Allan variance. */
  lemma VarianceScale(sum: real, steps: real, tau: real, terms: real)
    requires tau != 0.0 && terms > 0.0 && sum == Prod(Sq(tau), steps)
    ensures Spread(sum, tau, terms) == steps / (2.0 * terms)
  {
    hide Sq;
    var q := Sq(tau);
    SqPositive(tau);
    assert 2.0 * (q * terms) == q * (2.0 * terms);
    CancelScale(q, steps, 2.0 * terms, q * (2.0 * terms), q * steps);
  }

  lemma CancelScale(q: real, a: real, b: real, qb: real, qa: real)
    requires q > 0.0 && b > 0.0 && qb == q * b && qa == q * a
    ensures qb != 0.0 && qa / qb == a / b
  {
    assert qb == PositiveProduct(q, b);
    var r := a / b;
    assert a == r * b;
    Requotient(q, r, b, qb, qa);
  }

  lemma Requotient(q: real, r: real, b: real, qb: real, qa: real)
    requires qb == q * b && qb != 0.0 && qa == q * (r * b)
    ensures qa / qb == r
  {
    assert qa == r * qb by { Rebracket(q, r, b); }
  }

  lemma Rebracket(q: real, r: real, b: real)
    ensures q * (r * b) == r * (q * b)
  {}

  function ScaledSteps(x: seq<real>, m: nat, tau: real): int -> real
    requires m > 0
  {
    k => Prod(Sq(tau), StepSquared(x, m, k))
  }

  /** One octave: the sum over every overlapping pair of clusters. */
  method OnePoint(lib: Libm, theta: array<real>, x: seq<real>, m: nat, dt: real) returns (p: Point)
    requires m > 0 && 2 * m < |x| && theta.Length == |x| + 1 && dt > 0.0
    requires forall k :: 0 <= k <= |x| ==> theta[k] == Prod(dt, Span(x, 0, k))
    ensures p == Point(Prod(m as real, dt), lib.sqrt(AllanVariance(x, m)))
  {
    hide Prod, Span, ClusterMean, Sq, StepSquared, ScaledSteps, Spread, Steps;
    var n := |x|;
    var tau := Prod(m as real, dt);
    TauPositive(m as real, dt);
    var sum := 0.0;
    var terms := n - 2 * m + 1;
    ghost var g := ScaledSteps(x, m, tau);
    for k := 0 to n - 2 * m + 1
      invariant sum == Sum(k, g)
    {
      var d := theta[k + 2 * m] - 2.0 * theta[k + m] + theta[k];
      SecondDifference(x, k, m, dt, tau);
      StepTerm(x, m, k, tau, d);
      sum := sum + Sq(d);
    }
    StepsScaled(x, m, tau, terms);
    VarianceScale(sum, Sum(terms, Steps(x, m)), tau, terms as real);
    p := Point(tau, lib.sqrt(Spread(sum, tau, terms as real)));
  }

  lemma StepsScaled(x: seq<real>, m: nat, tau: real, terms: nat)
    requires m > 0
    ensures Sum(terms, ScaledSteps(x, m, tau)) == Prod(Sq(tau), Sum(terms, Steps(x, m)))
  {
    hide Sq, StepSquared;
    SumScale(terms, Sq(tau), Steps(x, m), ScaledSteps(x, m, tau));
  }

  lemma TauPositive(a: real, b: real)
    requires a > 0.0 && b > 0.0
    ensures Prod(a, b) > 0.0
  {
    assert Prod(a, b) == PositiveProduct(a, b);
  }

  lemma StepTerm(x: seq<real>, m: nat, k: nat, tau: real, d: real)
    requires m > 0 && k + 2 * m <= |x| && d == Prod(tau, ClusterMean(x, k + m, m) - ClusterMean(x, k, m))
    ensures Sq(d) == ScaledSteps(x, m, tau)(k)
  {
    hide ClusterMean;
    SqProduct(tau, ClusterMean(x, k + m, m) - ClusterMean(x, k, m), d);
  }

  /** The point of octave j by the definition. */
  function PointAt(lib: Libm, x: seq<real>, fs: real, j: nat): Point
    requires fs > 0.0 && 2 * Octave(j) <= |x|
  {
    Point(Prod(Octave(j) as real, Over(1.0, fs)), lib.sqrt(AllanVariance(x, Octave(j))))
  }

  /** allan_deviation: one point an octave, each the Allan deviation by its definition. */
  method AllanDeviation(lib: Libm, x: seq<real>, fs: real, maxPts: nat) returns (pts: seq<Point>)
    ensures |x| < 8 || fs <= 0.0 || maxPts == 0 ==> pts == []
    ensures |x| >= 8 && fs > 0.0 && maxPts > 0 ==>
      && 0 < |pts| <= maxPts
      && (|pts| < maxPts ==> 2 * Octave(|pts|) >= |x|)
      && forall j :: 0 <= j < |pts| ==> 2 * Octave(j) < |x| && pts[j] == PointAt(lib, x, fs, j)
  {
    hide AllanVariance, Prod, Span, PointAt, Octave, Over;
    pts := [];
    OctaveLaws(0);
    if |x| < 8 || fs <= 0.0 || maxPts == 0 { return; }
    var dt := Over(1.0, fs);
    ReciprocalPositive(fs, dt);
    var theta := Integrate(x, dt);
    var m := 1;
    while 2 * m < |x| && |pts| < maxPts
      invariant forall k :: 0 <= k <= |x| ==> theta[k] == Prod(dt, Span(x, 0, k))
      invariant |pts| <= maxPts && m == Octave(|pts|)
      invariant |pts| == 0 ==> 2 * m < |x|
      invariant forall j :: 0 <= j < |pts| ==> 2 * Octave(j) < |x| && pts[j] == PointAt(lib, x, fs, j)
      decreases |x| - m
    {
      var p := OnePoint(lib, theta, x, m, dt);
      PointIs(lib, x, fs, |pts|, dt, p);
      OctaveLaws(|pts|);
      pts := pts + [p];
      m := m * 2;
    }
  }

  lemma OctaveLaws(j: nat)
    ensures Octave(0) == 1 && Octave(j + 1) == 2 * Octave(j)
  {}

  lemma PointIs(lib: Libm, x: seq<real>, fs: real, j: nat, dt: real, p: Point)
    requires fs > 0.0 && 2 * Octave(j) <= |x| && dt == Over(1.0, fs)
    requires p == Point(Prod(Octave(j) as real, dt), lib.sqrt(AllanVariance(x, Octave(j))))
    ensures p == PointAt(lib, x, fs, j)
  {
    hide AllanVariance, Prod, Octave;
  }

  lemma ReciprocalPositive(f: real, r: real)
    requires f > 0.0 && r == Over(1.0, f)
    ensures r > 0.0
  {
    assert r * f == 1.0;
    Sign(r, f);
  }

  lemma Sign(r: real, f: real)
    requires f > 0.0 && r * f == 1.0
    ensures r > 0.0
  {}
}
