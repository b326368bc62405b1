/**
 Heave and sea state (src/fusion.c): the leaky double integration of vertical
 acceleration with its output high-pass, and the exponentially weighted statistics
 the wave height and periods are read from.  Both objects take any sequence of steps.
 */
module SeaState {
  import opened Sums
  import opened FusionMath
  import F = Fusion

  const HEAVE_SETTLE_FACTOR := 10.0
  const SEASTATE_SETTLE_FACTOR := 2.0
  const SEASTATE_MIN_HEAVE_SIG := 0.02
  const SETTLE_CAP: nat := 1000000000000000000

  function Ceil(x: real): int {
    -((-x).Floor)
  }

  /** The samples a ramp of `factor` time constants is worth. */
  function SettleSamples(factor: real, tau: real, dt: real): (n: nat)
    requires tau > 0.0 && dt > 0.0
    ensures 1 <= n <= SETTLE_CAP
    ensures n < SETTLE_CAP ==> Over(Prod(factor, tau), dt) <= n as real
    ensures n > 1 ==> n as real < Over(Prod(factor, tau), dt) + 1.0
  {
    var c := Ceil(Over(Prod(factor, tau), dt));
    if c < 1 then 1 else if c > SETTLE_CAP then SETTLE_CAP else c
  }

  // ---------- heave ----------

  datatype Heave = Heave(vel: real, disp: real, dispPrev: real, y: real)

  const STILL := Heave(0.0, 0.0, 0.0, 0.0)

  /** One sample: how far the vertical acceleration is from rest, and the interval. */
  datatype Push = Push(down: real, dt: real)

  function VerticalAccel(q: Quat, accel: V3): real {
    Dot(QToR(q).r2, accel) + F.G_MS2
  }

  /** One leaky integration step of the rate `u` into `x`. */
  function Leaky(x: real, u: real, dt: real, tau: real): real
    requires tau > 0.0
  {
    var x1 := x + Prod(u, dt);
    x1 - Prod(x1, Over(dt, tau))
  }

  function HeaveStep(h: Heave, p: Push, tau: real): Heave
    requires tau > 0.0 && p.dt > 0.0
  {
    var vel := Leaky(h.vel, p.down, p.dt, tau);
    var disp := Leaky(h.disp, vel, p.dt, tau);
    Heave(vel, disp, disp, Prod(Over(tau, tau + p.dt), h.y + disp - h.dispPrev))
  }

  /** Steps no longer than τ, each with |a_down| at most A. */
  predicate GoodPush(p: Push, tau: real, A: real) {
    0.0 < p.dt <= tau && Abs(p.down) <= A
  }

  predicate Timed(ps: seq<Push>) {
    forall i :: 0 <= i < |ps| ==> ps[i].dt > 0.0
  }

  function HeaveRun(ps: seq<Push>, tau: real): Heave
    requires tau > 0.0 && Timed(ps)
  {
    if ps == [] then STILL
    else
      var last := ps[|ps| - 1];
      HeaveStep(HeaveRun(ps[..|ps| - 1], tau), last, tau)
  }

  ghost predicate Bounded(h: Heave, tau: real, A: real) {
    && Abs(h.vel) <= Prod(A, tau)
    && Abs(h.disp) <= Prod(Prod(A, tau), tau)
    && h.dispPrev == h.disp
    && Abs(h.y) <= 2.0 * Prod(Prod(A, tau), tau)
  }

  lemma AbsProduct(a: real, b: real, top: real)
    requires b >= 0.0 && Abs(a) <= top
    ensures Abs(Prod(a, b)) <= Prod(top, b)
  {
    assert (top - a) * b >= 0.0 && (top + a) * b >= 0.0;
  }

  lemma Ratio(a: real, b: real)
    requires 0.0 < a <= b
    ensures 0.0 < Over(a, b) <= 1.0 && Prod(Over(a, b), b) == a
  {
    var q := a / b;
    assert q * b == a;
    if q > 1.0 { assert (q - 1.0) * b > 0.0; }
  }

  lemma Distribute(x: real, p: real, s: real)
    ensures Prod(x + p, s) == Prod(x, s) + Prod(p, s)
    ensures Prod(x, 1.0 - s) == x - Prod(x, s)
  {}

  lemma KeepTop(T: real, l: real)
    requires 0.0 <= l <= 1.0 && T >= 0.0
    ensures Prod(T + Prod(T, l), 1.0 - l) <= T
    ensures Prod(Prod(T, l), 1.0 - l) <= Prod(T, l)
  {
    assert T * l >= 0.0;
    assert (T * l) * l >= 0.0;
    assert (T + T * l) * (1.0 - l) == T - (T * l) * l;
    assert (T * l) * (1.0 - l) == T * l - (T * l) * l;
  }

  /** In units of the leak l: what a step can add is what the leak then takes away. */
  lemma LeakStep(x: real, p: real, l: real, T: real)
    requires 0.0 <= l <= 1.0 && T >= 0.0 && Abs(x) <= T && Abs(p) <= Prod(T, l)
    ensures Abs((x + p) - Prod(x + p, l)) <= T
    ensures Abs((x + p) - Prod(x + p, l) - x) <= 2.0 * Prod(T, l)
  {
    hide Prod;
    var keep := 1.0 - l;
    Distribute(x + p, 0.0, l);
    Distribute(x, p, l);
    Distribute(p, 0.0, l);
    AbsProduct(x + p, keep, T + Prod(T, l));
    KeepTop(T, l);
    AbsProduct(p, keep, Prod(T, l));
    AbsProduct(x, l, T);
  }

  /** A leaky step keeps |x| ≤ B·τ when the rate fed to it is at most B, and moves x by at most 2·B·dt. */
  lemma LeakyBound(x: real, u: real, dt: real, tau: real, B: real)
    requires 0.0 < dt <= tau && Abs(u) <= B && Abs(x) <= Prod(B, tau)
    ensures Abs(Leaky(x, u, dt, tau)) <= Prod(B, tau)
    ensures Abs(Leaky(x, u, dt, tau) - x) <= 2.0 * Prod(B, dt)
  {
    hide Over, Prod;
    var l := Over(dt, tau);
    Ratio(dt, tau);
    AbsProduct(u, dt, B);
    Regroup(B, tau, l, dt);
    NonnegProd(B, tau);
    LeakStep(x, Prod(u, dt), l, Prod(B, tau));
  }

  lemma Regroup(B: real, tau: real, l: real, dt: real)
    requires Prod(l, tau) == dt
    ensures Prod(B, dt) == Prod(Prod(B, tau), l)
  {}

  lemma HighPassBound(y: real, d: real, dt: real, tau: real, C: real)
    requires 0.0 < dt && 0.0 < tau && C >= 0.0
    requires Abs(y) <= 2.0 * Prod(C, tau) && Abs(d) <= 2.0 * Prod(C, dt)
    ensures Abs(Prod(Over(tau, tau + dt), y + d)) <= 2.0 * Prod(C, tau)
  {
    hide Over;
    var a := Over(tau, tau + dt);
    Ratio(tau, tau + dt);
    AbsProduct(y + d, a, 2.0 * (C * tau + C * dt));
    assert (y + d) * a == a * (y + d);
    assert (C * tau + C * dt) * a == C * (a * (tau + dt));
  }

  lemma HeaveStepBounded(h: Heave, p: Push, tau: real, A: real)
    requires GoodPush(p, tau, A) && Bounded(h, tau, A)
    ensures Bounded(HeaveStep(h, p, tau), tau, A)
  {
    hide Leaky, Prod, Over;
    var vel := Leaky(h.vel, p.down, p.dt, tau);
    assert Prod(A, tau) >= 0.0 by { NonnegProd(A, tau); }
    var C := Prod(A, tau);
    LeakyBound(h.vel, p.down, p.dt, tau, A);
    LeakyBound(h.disp, vel, p.dt, tau, C);
    var disp := Leaky(h.disp, vel, p.dt, tau);
    HighPassBound(h.y, disp - h.disp, p.dt, tau, C);
    assert h.y + disp - h.dispPrev == h.y + (disp - h.disp);
  }

  lemma RunAppend(ps: seq<Push>, p: Push, tau: real)
    requires tau > 0.0 && Timed(ps) && p.dt > 0.0
    ensures Timed(ps + [p]) && HeaveRun(ps + [p], tau) == HeaveStep(HeaveRun(ps, tau), p, tau)
  {
    assert (ps + [p])[..|ps|] == ps;
  }

  /** Over any run of steps no longer than τ, heave stays within bounds set by A and τ alone. */
  lemma {:induction false} HeaveStaysBounded(ps: seq<Push>, tau: real, A: real)
    requires tau > 0.0 && A >= 0.0 && Timed(ps)
    requires forall i :: 0 <= i < |ps| ==> GoodPush(ps[i], tau, A)
    ensures Bounded(HeaveRun(ps, tau), tau, A)
  {
    if ps != [] {
      HeaveStaysBounded(ps[..|ps| - 1], tau, A);
      HeaveStepBounded(HeaveRun(ps[..|ps| - 1], tau), ps[|ps| - 1], tau, A);
    }
  }

  /** A displacement that stands still is not passed: the output only decays. */
  lemma HighPassStopsDc(h: Heave, p: Push, tau: real)
    requires tau > 0.0 && p.dt > 0.0
    ensures var h' := HeaveStep(h, p, tau);
            h'.disp == h.dispPrev ==> h'.y * (tau + p.dt) == h.y * tau
  {
    var a := Over(tau, tau + p.dt);
    assert a * (tau + p.dt) == tau;
    assert Prod(a, h.y) * (tau + p.dt) == h.y * (a * (tau + p.dt));
  }

  class HeaveEstimator {
    var tau: real
    var dt: real
    var vel: real
    var disp: real
    var dispPrev: real
    var y: real
    var n: nat
    var settleN: nat
    var settled: bool
    var enabled: bool
    ghost var pushes: seq<Push>

    ghost predicate Valid() reads this {
      && (enabled <==> tau > 0.0 && dt > 0.0)
      && (settled <==> enabled && n >= settleN)
      && (enabled ==> settleN == SettleSamples(HEAVE_SETTLE_FACTOR, tau, dt))
      && (enabled ==> n == |pushes|)
      && Timed(pushes)
      && (enabled ==> State() == HeaveRun(pushes, tau))
    }

    ghost function State(): Heave reads this {
      Heave(vel, disp, dispPrev, y)
    }

    constructor (tauS: real, dtS: real)
      ensures Valid() && pushes == [] && tau == tauS && dt == dtS
      ensures State() == STILL && !settled
    {
      vel, disp, dispPrev, y := 0.0, 0.0, 0.0, 0.0;
      tau, dt, n, settled := tauS, dtS, 0, false;
      enabled := tauS > 0.0 && dtS > 0.0;
      settleN := if tauS > 0.0 && dtS > 0.0 then SettleSamples(HEAVE_SETTLE_FACTOR, tauS, dtS) else 0;
      pushes := [];
    }

    /** The two leaky stages and the output high-pass. */
    method Integrate(down: real, step: real)
      requires tau > 0.0 && step > 0.0
      modifies this`vel, this`disp, this`dispPrev, this`y
      ensures State() == HeaveStep(old(State()), Push(down, step), tau)
    {
      hide Over, Prod;
      var leak := Over(step, tau);
      vel := vel + Prod(down, step);
      vel := vel - Prod(vel, leak);
      disp := disp + Prod(vel, step);
      disp := disp - Prod(disp, leak);
      var alpha := Over(tau, tau + step);
      y := Prod(alpha, y + disp - dispPrev);
      dispPrev := disp;
    }

    /** Feeds one sample; the output is positive up, so the negated high-pass state. */
    method Update(q: Quat, accel: V3, dtS: real) returns (up: real)
      requires Valid()
      modifies this
      ensures Valid() && tau == old(tau) && dt == old(dt) && enabled == old(enabled)
      ensures !enabled ==> up == 0.0 && pushes == old(pushes) && State() == old(State())
      ensures enabled ==> pushes == old(pushes) + [Push(VerticalAccel(q, accel), if dtS > 0.0 then dtS else dt)]
      ensures enabled ==> up == -HeaveRun(pushes, tau).y
      ensures enabled ==> (settled <==> |pushes| >= settleN) && settleN == old(settleN)
    {
      hide SettleSamples, HeaveRun, HeaveStep, QToR, Dot;
      if !enabled { return 0.0; }
      n := n + 1;
      if !settled && n >= settleN { settled := true; }
      var R := QToR(q);
      var down := Dot(R.r2, accel) + F.G_MS2;
      var step := if dtS > 0.0 then dtS else dt;
      Integrate(down, step);
      RunAppend(pushes, Push(down, step), tau);
      pushes := pushes + [Push(down, step)];
      up := -y;
    }
  }

  /** The documented bound on what Update returns, for every history it can have. */
  lemma OutputBounded(ps: seq<Push>, tau: real, A: real)
    requires tau > 0.0 && A >= 0.0 && Timed(ps)
    requires forall i :: 0 <= i < |ps| ==> GoodPush(ps[i], tau, A)
    ensures Abs(-HeaveRun(ps, tau).y) <= 2.0 * Prod(Prod(A, tau), tau)
  {
    HeaveStaysBounded(ps, tau, A);
  }

  // ---------- exponentially weighted statistics ----------

  datatype Stat = Stat(mean: real, var_: real)

  /** One sample with the gain it is fed at, dt/τ. */
  datatype Fed = Fed(x: real, gain: real)

  function EwStep(s: Stat, f: Fed): Stat {
    var d := f.x - s.mean;
    Stat(s.mean + Prod(f.gain, d), s.var_ + Prod(f.gain, Prod(1.0 - f.gain, Sq(d)) - s.var_))
  }

  function EwRun(h: seq<Fed>): Stat {
    if h == [] then Stat(0.0, 0.0) else EwStep(EwRun(h[..|h| - 1]), h[|h| - 1])
  }

  /** What is left, after the samples of h, of the weight of whatever came before them. */
  function Faded(h: seq<Fed>): real {
    if h == [] then 1.0 else Prod(1.0 - h[0].gain, Faded(h[1..]))
  }

  /** The weight of sample i: its gain, faded by everything fed since. */
  function Weight(h: seq<Fed>, i: nat): real
    requires i < |h|
  {
    Prod(h[i].gain, Faded(h[i + 1..]))
  }

  function Term(h: seq<Fed>, g: real -> real): int -> real {
    i => if 0 <= i < |h| then Prod(Weight(h, i), g(h[i].x)) else 0.0
  }

  /** The weighted sum of g over the history, the zero start counting as a sample of its own. */
  function Weighted(h: seq<Fed>, g: real -> real): real {
    Sum(|h|, Term(h, g)) + Prod(Faded(h), g(0.0))
  }

  lemma {:induction false} FadedAppend(h: seq<Fed>, f: Fed)
    ensures Faded(h + [f]) == Prod(1.0 - f.gain, Faded(h))
  {
    if h == [] {
      assert (h + [f])[1..] == [];
    } else {
      assert (h + [f])[1..] == h[1..] + [f];
      FadedAppend(h[1..], f);
      var a, b, c := 1.0 - h[0].gain, 1.0 - f.gain, Faded(h[1..]);
      assert a * (b * c) == b * (a * c);
    }
  }

  /** Feeding one more sample fades every old weight alike and adds its own. */
  lemma WeightedAppend(h: seq<Fed>, f: Fed, g: real -> real)
    ensures Weighted(h + [f], g) == Prod(1.0 - f.gain, Weighted(h, g)) + Prod(f.gain, g(f.x))
  {
    hide Prod, Faded, Weight;
    var e := h + [f];
    var keep := 1.0 - f.gain;
    var s, t := Term(h, g), Term(e, g);
    forall k | 0 <= k < |h| ensures t(k) == Prod(keep, s(k)) {
      WeightFades(h, f, k, g(h[k].x));
    }
    ScaledSum(|h|, keep, s, t);
    assert e[|h|] == f && |e| == |h| + 1;
    NewWeight(h, f, g(f.x));
    assert t(|h|) == Prod(f.gain, g(f.x));
    assert Sum(|e|, t) == Sum(|h|, t) + t(|h|);
    FadedAppend(h, f);
    Gather(keep, Sum(|h|, s), Faded(h), g(0.0));
    assert Weighted(h, g) == Sum(|h|, s) + Prod(Faded(h), g(0.0));
    assert Weighted(e, g) == Sum(|e|, t) + Prod(Faded(e), g(0.0));
  }

  lemma ScaledSum(n: nat, c: real, s: int -> real, t: int -> real)
    requires forall k :: 0 <= k < n ==> t(k) == Prod(c, s(k))
    ensures Sum(n, t) == Prod(c, Sum(n, s))
  {
    SumScale(n, c, s, t);
  }

  lemma WeightFades(h: seq<Fed>, f: Fed, k: nat, y: real)
    requires k < |h|
    ensures Prod(Weight(h + [f], k), y) == Prod(1.0 - f.gain, Prod(Weight(h, k), y))
  {
    hide Prod;
    assert (h + [f])[k + 1..] == h[k + 1..] + [f];
    FadedAppend(h[k + 1..], f);
    Pull(1.0 - f.gain, h[k].gain, Faded(h[k + 1..]), y);
  }

  lemma NewWeight(h: seq<Fed>, f: Fed, y: real)
    ensures Prod(Weight(h + [f], |h|), y) == Prod(f.gain, y)
  {
    hide Prod;
    assert (h + [f])[|h| + 1..] == [];
    LastWeight(f.gain, y);
  }

  lemma LastWeight(a: real, b: real)
    ensures Prod(Prod(a, 1.0), b) == Prod(a, b)
  {}

  lemma Pull(keep: real, a: real, w: real, g: real)
    ensures Prod(Prod(a, Prod(keep, w)), g) == Prod(keep, Prod(Prod(a, w), g))
  {
    assert a * (keep * w) == keep * (a * w);
    assert keep * (a * w) * g == keep * (a * w * g);
  }

  lemma Gather(keep: real, s: real, w: real, g: real)
    ensures Prod(keep, s) + Prod(Prod(keep, w), g) == Prod(keep, s + Prod(w, g))
  {
    assert keep * w * g == keep * (w * g);
  }

  lemma {:induction false} WeightsSumToOne(h: seq<Fed>)
    ensures Weighted(h, _ => 1.0) == 1.0
  {
    if h != [] {
      var old_ := h[..|h| - 1];
      assert old_ + [h[|h| - 1]] == h;
      WeightsSumToOne(old_);
      WeightedAppend(old_, h[|h| - 1], _ => 1.0);
    }
  }

  /** The running mean is the weighted mean of the history. */
  lemma {:induction false} MeanIsWeighted(h: seq<Fed>)
    ensures EwRun(h).mean == Weighted(h, x => x)
  {
    if h == [] {
      assert Weighted(h, x => x) == Prod(1.0, 0.0);
    } else {
      hide Prod, Weighted;
      var old_, f := h[..|h| - 1], h[|h| - 1];
      assert old_ + [f] == h;
      MeanIsWeighted(old_);
      WeightedAppend(old_, f, x => x);
      MoveMean(f.gain, EwRun(old_).mean, f.x);
    }
  }

  lemma MoveMean(a: real, m: real, x: real)
    ensures m + Prod(a, x - m) == Prod(1.0 - a, m) + Prod(a, x)
  {}

  /** The spread about any centre is the running variance plus the squared distance to the mean. */
  lemma {:induction false} SpreadAbout(h: seq<Fed>, c: real)
    ensures Weighted(h, x => Sq(x - c)) == EwRun(h).var_ + Sq(EwRun(h).mean - c)
  {
    var g := x => Sq(x - c);
    if h != [] {
      var old_, f := h[..|h| - 1], h[|h| - 1];
      assert old_ + [f] == h;
      SpreadAbout(old_, c);
      WeightedAppend(old_, f, g);
      OneMore(EwRun(old_).mean, EwRun(old_).var_, f.x, f.gain, c);
    }
  }

  lemma OneMore(m: real, v: real, x: real, a: real, c: real)
    ensures var s := EwStep(Stat(m, v), Fed(x, a));
            s.var_ + Sq(s.mean - c) == Prod(1.0 - a, v + Sq(m - c)) + Prod(a, Sq(x - c))
  {
    hide Prod, Sq;
    var u, w := m - c, x - m;
    Shares(a, v + Sq(u));
    SqSum(u, w, a);
    Spans(a, Sq(u), Prod(u, w), Sq(w));
    Shares(a, Sq(w));
    Apart(a, Prod(1.0 - a, Sq(w)), v);
    Apart(a, Sq(w), Prod(a, Sq(w)));
    Halves(a, v, Sq(u));
    assert x - c == u + w && m + Prod(a, w) - c == u + Prod(a, w);
  }

  lemma Shares(a: real, b: real)
    ensures Prod(1.0 - a, b) == b - Prod(a, b)
  {}

  lemma Halves(a: real, b: real, c: real)
    ensures Prod(a, b + c) == Prod(a, b) + Prod(a, c)
  {}

  lemma Apart(a: real, b: real, c: real)
    ensures Prod(a, b - c) == Prod(a, b) - Prod(a, c)
  {}

  lemma Spans(a: real, b: real, c: real, d: real)
    ensures Prod(a, b + 2.0 * c + d) == Prod(a, b) + 2.0 * Prod(a, c) + Prod(a, d)
  {}

  lemma SqSum(u: real, w: real, a: real)
    ensures Sq(u + w) == Sq(u) + 2.0 * Prod(u, w) + Sq(w)
    ensures Sq(u + Prod(a, w)) == Sq(u) + 2.0 * Prod(a, Prod(u, w)) + Prod(a, Prod(a, Sq(w)))
  {
    var p := a * w;
    assert (u + p) * (u + p) == u * u + 2.0 * (u * p) + p * p;
    assert u * p == a * (u * w);
    assert p * p == a * (a * (w * w));
  }

  /** The weighted variance of a history about its weighted mean. */
  function SpreadOf(h: seq<Fed>): real {
    var mean := Weighted(h, x => x);
    Weighted(h, x => Sq(x - mean))
  }

  /** The running variance is exactly the weighted variance of the history about its weighted mean. */
  lemma VarianceIsExact(h: seq<Fed>)
    ensures EwRun(h).var_ == SpreadOf(h)
  {
    var mean := Weighted(h, x => x);
    MeanIsWeighted(h);
    SpreadAbout(h, mean);
    var g := x => Sq(x - mean);
    assert SpreadOf(h) == Weighted(h, g);
  }

  predicate Gain(f: Fed) {
    0.0 < f.gain <= 1.0
  }

  /** No step of the history outran τ. */
  predicate Brisk(h: seq<Fed>) {
    forall i :: 0 <= i < |h| ==> Gain(h[i])
  }

  /** A weighted sum lies between the bounds of what it sums. */
  lemma {:induction false} WeightedBounds(h: seq<Fed>, g: real -> real, top: real)
    requires forall i :: 0 <= i < |h| ==> Gain(h[i]) && 0.0 <= g(h[i].x) <= top
    requires 0.0 <= g(0.0) <= top
    ensures 0.0 <= Weighted(h, g) <= top
  {
    hide Prod;
    if h == [] {
      UnitWeight(g(0.0));
    } else {
      var old_, f := h[..|h| - 1], h[|h| - 1];
      assert old_ + [f] == h;
      WeightedBounds(old_, g, top);
      WeightedAppend(old_, f, g);
      Mix(f.gain, Weighted(old_, g), g(f.x), top);
    }
  }

  lemma UnitWeight(a: real)
    ensures Prod(1.0, a) == a
  {}

  lemma Mix(a: real, x: real, y: real, top: real)
    requires 0.0 <= a <= 1.0 && 0.0 <= x <= top && 0.0 <= y <= top
    ensures 0.0 <= Prod(1.0 - a, x) + Prod(a, y) <= top
  {
    assert (1.0 - a) * (top - x) >= 0.0 && a * (top - y) >= 0.0;
    assert (1.0 - a) * x >= 0.0 && a * y >= 0.0;
  }

  /** With steps no longer than τ the variance is never negative, nor above the square of the largest sample. */
  lemma VarianceBounds(h: seq<Fed>, A: real)
    requires A >= 0.0 && forall i :: 0 <= i < |h| ==> Gain(h[i]) && Abs(h[i].x) <= A
    ensures 0.0 <= EwRun(h).var_ <= Sq(A)
  {
    hide EwRun, Weighted;
    var m := EwRun(h).mean;
    SpreadAbout(h, m);
    var g := x => Sq(x - m);
    var reach := Sq(A + Abs(m));
    forall i | 0 <= i < |h| ensures 0.0 <= g(h[i].x) <= reach {
      SquareBound(h[i].x - m, A + Abs(m));
    }
    SquareBound(0.0 - m, A + Abs(m));
    WeightedBounds(h, g, reach);
    SpreadAbout(h, 0.0);
    var z := x => Sq(x - 0.0);
    forall i | 0 <= i < |h| ensures 0.0 <= z(h[i].x) <= Sq(A) {
      SquareBound(h[i].x - 0.0, A);
    }
    SquareBound(0.0, A);
    WeightedBounds(h, z, Sq(A));
  }

  lemma SquareBound(x: real, b: real)
    requires Abs(x) <= b
    ensures 0.0 <= Sq(x) <= Sq(b)
  {
    var u, v := b - x, b + x;
    assert u >= 0.0 && v >= 0.0;
    NonnegProd(u, v);
    assert u * v == b * b - x * x;
  }

  /** The bound on the step cannot be dropped: a longer one makes the variance negative, and only it does. */
  lemma LongStepBreaks(s: Stat, f: Fed)
    requires s.var_ >= 0.0 && f.gain > 0.0
    ensures EwStep(s, f).var_ >= 0.0 <==> f.gain <= 1.0 || (s.var_ == 0.0 && f.x == s.mean)
  {
    hide Prod, Sq;
    var d, a, v := f.x - s.mean, f.gain, s.var_;
    Factored(a, v, Sq(d));
    SquareSign(d);
    ProductSign(a, Sq(d));
    ProductSign(1.0 - a, v + Prod(a, Sq(d)));
  }

  lemma Factored(a: real, v: real, q: real)
    ensures v + Prod(a, Prod(1.0 - a, q) - v) == Prod(1.0 - a, v + Prod(a, q))
  {
    var p := a * q;
    assert (1.0 - a) * q == q - p;
    assert a * (q - p - v) == p - a * p - a * v;
    assert (1.0 - a) * (v + p) == v + p - a * v - a * p;
  }

  lemma SquareSign(x: real)
    ensures Sq(x) >= 0.0 && (Sq(x) == 0.0 <==> x == 0.0)
  {
    SquareNonneg(x);
    if x != 0.0 { SqPositive(x); }
  }

  lemma ProductSign(a: real, b: real)
    requires b >= 0.0
    ensures a >= 0.0 ==> Prod(a, b) >= 0.0
    ensures a > 0.0 && b > 0.0 ==> Prod(a, b) > 0.0
    ensures a < 0.0 && b > 0.0 ==> Prod(a, b) < 0.0
    ensures b == 0.0 ==> Prod(a, b) == 0.0
  {}

  /** Such a step: the first sample, 1, fed over twice the window leaves the variance at -2. */
  lemma LongStepExample()
    ensures EwStep(Stat(0.0, 0.0), Fed(1.0, 2.0)).var_ == -2.0
  {}

  /** One set of inputs to the sea-state estimator. */
  datatype Motion = Motion(heave: real, heaveRate: real, roll: real, rollRate: real,
                           pitch: real, pitchRate: real)

  datatype Stats = Stats(h: Stat, hr: Stat, r: Stat, rr: Stat, p: Stat, pr: Stat)

  const NO_STATS := Stats(Stat(0.0, 0.0), Stat(0.0, 0.0), Stat(0.0, 0.0), Stat(0.0, 0.0), Stat(0.0, 0.0), Stat(0.0, 0.0))

  /** One call: what was measured, and the gain it was fed at. */
  datatype Sample = Sample(m: Motion, gain: real)

  function StatsStep(s: Stats, u: Sample): Stats {
    Stats(EwStep(s.h, Fed(u.m.heave, u.gain)), EwStep(s.hr, Fed(u.m.heaveRate, u.gain)),
          EwStep(s.r, Fed(u.m.roll, u.gain)), EwStep(s.rr, Fed(u.m.rollRate, u.gain)),
          EwStep(s.p, Fed(u.m.pitch, u.gain)), EwStep(s.pr, Fed(u.m.pitchRate, u.gain)))
  }

  function StatsRun(us: seq<Sample>): Stats {
    if us == [] then NO_STATS else StatsStep(StatsRun(us[..|us| - 1]), us[|us| - 1])
  }

  lemma StatsAppend(us: seq<Sample>, u: Sample)
    ensures StatsRun(us + [u]) == StatsStep(StatsRun(us), u)
  {
    assert (us + [u])[..|us|] == us;
  }

  /** The history one of the six statistics has seen. */
  function Column(us: seq<Sample>, pick: Motion -> real): (h: seq<Fed>)
    ensures |h| == |us|
    ensures forall i :: 0 <= i < |us| ==> h[i] == Fed(pick(us[i].m), us[i].gain)
  {
    seq(|us|, i requires 0 <= i < |us| => Fed(pick(us[i].m), us[i].gain))
  }

  function Heaves(us: seq<Sample>): seq<Fed> { Column(us, (m: Motion) => m.heave) }
  function HeaveRates(us: seq<Sample>): seq<Fed> { Column(us, (m: Motion) => m.heaveRate) }
  function Rolls(us: seq<Sample>): seq<Fed> { Column(us, (m: Motion) => m.roll) }
  function RollRates(us: seq<Sample>): seq<Fed> { Column(us, (m: Motion) => m.rollRate) }
  function Pitches(us: seq<Sample>): seq<Fed> { Column(us, (m: Motion) => m.pitch) }
  function PitchRates(us: seq<Sample>): seq<Fed> { Column(us, (m: Motion) => m.pitchRate) }

  /** Each of the six statistics is the run over its own measurement, and over no other. */
  lemma {:induction false} StatsAreSeparate(us: seq<Sample>)
    ensures StatsRun(us) == Stats(EwRun(Heaves(us)), EwRun(HeaveRates(us)), EwRun(Rolls(us)),
                                  EwRun(RollRates(us)), EwRun(Pitches(us)), EwRun(PitchRates(us)))
  {
    hide EwStep;
    if us != [] {
      var last := |us| - 1;
      StatsAreSeparate(us[..last]);
      assert Heaves(us)[..last] == Heaves(us[..last]);
      assert HeaveRates(us)[..last] == HeaveRates(us[..last]);
      assert Rolls(us)[..last] == Rolls(us[..last]);
      assert RollRates(us)[..last] == RollRates(us[..last]);
      assert Pitches(us)[..last] == Pitches(us[..last]);
      assert PitchRates(us)[..last] == PitchRates(us[..last]);
    }
  }

  class SeaStateEstimator {
    var tau: real
    var dt: real
    var h: Stat
    var hr: Stat
    var r: Stat
    var rr: Stat
    var p: Stat
    var pr: Stat
    var n: nat
    var settleN: nat
    var settled: bool
    var enabled: bool
    ghost var fed: seq<Sample>

    ghost predicate Valid() reads this {
      && (enabled <==> tau > 0.0 && dt > 0.0)
      && (settled <==> enabled && n >= settleN)
      && (enabled ==> settleN == SettleSamples(SEASTATE_SETTLE_FACTOR, tau, dt))
      && n == |fed|
      && Totals() == StatsRun(fed)
    }

    constructor (tauS: real, dtS: real)
      ensures Valid() && fed == [] && tau == tauS && dt == dtS && !settled
    {
      tau, dt, n, settled := tauS, dtS, 0, false;
      enabled := tauS > 0.0 && dtS > 0.0;
      settleN := if tauS > 0.0 && dtS > 0.0 then SettleSamples(SEASTATE_SETTLE_FACTOR, tauS, dtS) else 0;
      h, hr, r, rr, p, pr := Stat(0.0, 0.0), Stat(0.0, 0.0), Stat(0.0, 0.0), Stat(0.0, 0.0), Stat(0.0, 0.0), Stat(0.0, 0.0);
      fed := [];
    }

    ghost function Totals(): Stats reads this {
      Stats(h, hr, r, rr, p, pr)
    }

    /** The six ew_stat calls of one sample. */
    method FeedAll(m: Motion, alpha: real)
      modifies this`h, this`hr, this`r, this`rr, this`p, this`pr
      ensures Totals() == StatsStep(old(Totals()), Sample(m, alpha))
    {
      hide EwStep;
      h := Feed(h, m.heave, alpha);
      hr := Feed(hr, m.heaveRate, alpha);
      r := Feed(r, m.roll, alpha);
      rr := Feed(rr, m.rollRate, alpha);
      p := Feed(p, m.pitch, alpha);
      pr := Feed(pr, m.pitchRate, alpha);
    }

    /** Feeds all six statistics with one gain, the step over the window. */
    method Update(m: Motion, dtS: real)
      requires Valid()
      modifies this
      ensures Valid() && tau == old(tau) && dt == old(dt) && enabled == old(enabled) && settleN == old(settleN)
      ensures !enabled ==> fed == old(fed)
      ensures enabled ==> fed == old(fed) + [Sample(m, Over(if dtS > 0.0 then dtS else dt, tau))]
    {
      hide EwStep, StatsStep, Over, SettleSamples, StatsRun;
      if !enabled { return; }
      var alpha := Over(if dtS > 0.0 then dtS else dt, tau);
      FeedAll(m, alpha);
      n := n + 1;
      if !settled && n >= settleN { settled := true; }
      StatsAppend(fed, Sample(m, alpha));
      fed := fed + [Sample(m, alpha)];
    }

    /** Significant wave height, four standard deviations of heave; zero until settled. */
    method WaveHeight(lib: Libm) returns (height: real)
      requires Valid() && lib.Valid()
      ensures !settled ==> height == 0.0
      ensures Brisk(Heaves(fed)) ==> h.var_ >= 0.0
      ensures settled && h.var_ >= 0.0 ==> height >= 0.0 && Sq(height) == 16.0 * SpreadOf(Heaves(fed))
    {
      hide EwRun, SpreadOf, SettleSamples, Over, Heaves, Brisk, StatsRun;
      StatsAreSeparate(fed);
      VarianceIsExact(Heaves(fed));
      if Brisk(Heaves(fed)) { VarianceNonneg(Heaves(fed)); }
      if !enabled || !settled { return 0.0; }
      var s := lib.sqrt(h.var_);
      height := 4.0 * s;
      assert height * height == 16.0 * (s * s);
    }

    /** The mean zero-crossing period of heave; zero below the oscillation floor. */
    method WavePeriod(lib: Libm) returns (period: real)
      requires Valid() && lib.Valid()
      ensures Brisk(Heaves(fed)) ==> h.var_ >= 0.0
      ensures !settled || hr.var_ <= 0.0 || 0.0 <= h.var_ < Sq(SEASTATE_MIN_HEAVE_SIG) ==> period == 0.0
      ensures settled && hr.var_ > 0.0 && h.var_ >= Sq(SEASTATE_MIN_HEAVE_SIG) ==>
        period >= 0.0 && Sq(period) * hr.var_ == 4.0 * Sq(F.PI) * h.var_
    {
      hide EwRun, SettleSamples, Over, Heaves, Brisk, StatsRun;
      StatsAreSeparate(fed);
      if Brisk(Heaves(fed)) { VarianceNonneg(Heaves(fed)); }
      if !enabled || !settled { return 0.0; }
      var s := lib.sqrt(h.var_);
      if h.var_ >= 0.0 {
        assert s * s == h.var_;
        RootOrder(s, SEASTATE_MIN_HEAVE_SIG);
      }
      if s < SEASTATE_MIN_HEAVE_SIG || hr.var_ <= 0.0 { return 0.0; }
      period := PeriodOf(lib, h.var_, hr.var_);
    }
  }

  /** Two pi times the root of a ratio of variances. */
  method PeriodOf(lib: Libm, m0: real, m2: real) returns (period: real)
    requires lib.Valid() && m2 > 0.0
    ensures m0 >= 0.0 ==> period >= 0.0 && Sq(period) * m2 == 4.0 * Sq(F.PI) * m0
  {
    var q := m0 / m2;
    assert q * m2 == m0;
    var root := lib.sqrt(q);
    period := 2.0 * F.PI * root;
    assert period * period == 4.0 * F.PI * F.PI * (root * root);
  }

  lemma Bigger(a: real, b: real)
    requires a > b >= 0.0
    ensures Sq(a) > Sq(b)
  {
    var d := a - b;
    assert a * a == b * b + d * (a + b);
    assert d * (a + b) > 0.0;
  }

  lemma RootOrder(s: real, b: real)
    requires s >= 0.0 && b > 0.0
    ensures s < b <==> s * s < Sq(b)
  {
    if s < b {
      assert s * (b - s) >= 0.0 && b * (b - s) > 0.0;
    } else {
      assert (s - b) * (s + b) >= 0.0;
    }
  }

  method Feed(s: Stat, x: real, alpha: real) returns (s': Stat)
    ensures s' == EwStep(s, Fed(x, alpha))
  {
    var d := x - s.mean;
    var mean := s.mean + Prod(alpha, d);
    var var_ := s.var_ + Prod(alpha, Prod(1.0 - alpha, Sq(d)) - s.var_);
    s' := Stat(mean, var_);
  }

  predicate AllWithin(h: seq<Fed>, A: real) {
    forall i :: 0 <= i < |h| ==> Abs(h[i].x) <= A
  }

  lemma {:induction false} LargestSample(h: seq<Fed>)
    ensures exists A: real :: A >= 0.0 && AllWithin(h, A)
  {
    if h == [] {
      assert AllWithin(h, 0.0);
    } else {
      LargestSample(h[1..]);
      var A :| A >= 0.0 && AllWithin(h[1..], A);
      var B := A + Abs(h[0].x);
      forall i | 0 <= i < |h| ensures Abs(h[i].x) <= B {
        if i > 0 { assert h[i] == h[1..][i - 1]; }
      }
      assert AllWithin(h, B);
    }
  }

  /** The variance of such a history is never negative. */
  lemma VarianceNonneg(h: seq<Fed>)
    requires Brisk(h)
    ensures EwRun(h).var_ >= 0.0
  {
    LargestSample(h);
    var A :| A >= 0.0 && AllWithin(h, A);
    VarianceBounds(h, A);
  }

  /** Fed only with heave that HeaveEstimator can put out, the wave height stays within 8·A·τ². */
  lemma WaveHeightBounded(h: seq<Fed>, tau: real, A: real, height: real)
    requires A >= 0.0 && tau > 0.0 && height >= 0.0
    requires forall i :: 0 <= i < |h| ==> Gain(h[i]) && Abs(h[i].x) <= 2.0 * Prod(Prod(A, tau), tau)
    requires Sq(height) == 16.0 * SpreadOf(h)
    ensures height <= 8.0 * Prod(Prod(A, tau), tau)
  {
    hide Prod;
    var B := 2.0 * Prod(Prod(A, tau), tau);
    assert Prod(Prod(A, tau), tau) >= 0.0 by { NonnegProd(A, tau); NonnegProd(Prod(A, tau), tau); }
    VarianceIsExact(h);
    VarianceBounds(h, B);
    hide SpreadOf, EwRun, Sq;
    if height > 4.0 * B {
      Bigger(height, 4.0 * B);
      FourTimes(B);
    }
  }

  lemma FourTimes(B: real)
    ensures Sq(4.0 * B) == 16.0 * Sq(B)
  {}

  lemma NonnegProd(a: real, b: real)
    requires a >= 0.0 && b >= 0.0
    ensures Prod(a, b) >= 0.0
  {}
}
