/**
 What each call of src/fusion.c does to the filter, as functions from state to state
 over exact reals.  `n` is the error-state dimension: 9 is the shipped filter, 6 the
 filter without the wave block, obtained by running the same functions at that size.
 */
module Fusion {
  import opened FusionMath
  import opened Matrix

  const G_MS2 := 9.80665
  const PI := 3.14159265358979323846
  const GROSS_REJECT_MULT := 25.0
  const ACCEL_CHI2_GATE := 11.34
  const YAW_CHI2_GATE := 6.63
  const GATE_TAU_S := 30.0
  const MREF_TAU_S := 300.0
  const MREF_ACQUIRE_S := 1.0

  /** The keys of the configuration that mekf_derive_tuning reads. */
  datatype Config = Config(gyroNoise: real, gyroBias: real, accelNoise: real, magNoise: real,
                           waveAccel: real, waveTau: real, dipSigmaDeg: real, skipThresh: real,
                           rejectGauss: real, yawOnly: bool, fuseUncal: bool, uncalReject: real)

  datatype Tuning = Tuning(Qg: real, Qb: real, Ra: real, Rm: real,
                           waveTau: real, waveSig2: real, waveEnabled: bool, dipSig2: real,
                           skipLo: real, skipHi: real, rejectSq: real, yawOnly: bool,
                           fuseUncal: bool, uncalReject: real, mrefAlpha: real,
                           gateAlpha: real, nisMagAlpha: real, convThresh: real)

  datatype Health = Health(magAnom: real, magResid: real, weight: real, reject: real,
                           dtAccum: real, nisAccel: real, nisMag: real, quiet: real)

  /** Everything in mekf_t beside the estimate and its covariance. */
  datatype Aux = Aux(dt: real, magOdr: real, biasInit: V3,
                     mRef: V3, mRefValid: bool, mrefSum: V3, mrefN: nat,
                     initialized: bool, converged: bool, stateReset: bool, resetCount: nat,
                     tun: Tuning, raScale: real, speed: real,
                     uncalWithdrawn: bool, uncalLimit: real, uncalSeen: bool,
                     gBody: V3, gBodyValid: bool, accepted: nat, health: Health)

  datatype State = State(q: Quat, bias: V3, waveAcc: V3, P: Mat, aux: Aux)

  datatype ImuSample = ImuSample(accel: V3, gyro: V3)
  datatype MagSample = MagSample(field: V3, valid: bool, calibrated: bool)

  /** What the source's divisions need: a positive rate, and a positive wave time constant in use. */
  predicate Runnable(s: State) {
    s.aux.dt > 0.0 && (s.aux.tun.waveEnabled ==> s.aux.tun.waveTau > 0.0)
  }

  // ---------- small matrices ----------

  function Entry(v: V3, i: int): real {
    if i == 0 then v.x else if i == 1 then v.y else if i == 2 then v.z else 0.0
  }

  function RowOf(A: M33, i: int): V3 {
    if i == 0 then A.r0 else if i == 1 then A.r1 else if i == 2 then A.r2 else ORIGIN
  }

  function EntryOf(A: M33, i: int, j: int): real {
    Entry(RowOf(A, i), j)
  }

  function FromM33(A: M33): (C: Mat)
    ensures IsMat(C, 3, 3)
  {
    Tab(3, 3, (i, j) => EntryOf(A, i, j))
  }

  function ToM33(A: Mat): M33 {
    M33(V3(At(A, 0, 0), At(A, 0, 1), At(A, 0, 2)),
        V3(At(A, 1, 0), At(A, 1, 1), At(A, 1, 2)),
        V3(At(A, 2, 0), At(A, 2, 1), At(A, 2, 2)))
  }

  function Col(v: V3): (C: Mat)
    ensures IsMat(C, 3, 1)
  {
    Tab(3, 1, (i, j) => Entry(v, i))
  }

  /** Entries i0, i0+1, i0+2 of a column; zero past its end. */
  function Sub3(x: Mat, i0: int): V3 {
    V3(At(x, i0, 0), At(x, i0 + 1, 0), At(x, i0 + 2, 0))
  }

  /** +[h×]. */
  function Skew(h: V3): M33 {
    M33(V3(0.0, -h.z, h.y), V3(h.z, 0.0, -h.x), V3(-h.y, h.x, 0.0))
  }

  /** I - z zᵀ. */
  function Projector(z: V3): M33 {
    M33(V3(1.0 - z.x * z.x, -(z.x * z.y), -(z.x * z.z)),
        V3(-(z.y * z.x), 1.0 - z.y * z.y, -(z.y * z.z)),
        V3(-(z.z * z.x), -(z.z * z.y), 1.0 - z.z * z.z))
  }

  // ---------- Jacobians ----------

  /** dir_jacobian: H = [ [h×] | 0 | 0 ]. */
  function DirJacobian(n: nat, h: V3): (C: Mat)
    ensures IsMat(C, 3, n)
  {
    Tab(3, n, (i, j) => EntryOf(Skew(h), i, j))
  }

  /** wave_jacobian: H = [ Pz [h×] / |v| | 0 | -Pz / |v| ], v = h - aw, zhat = v / |v|. */
  function WaveJacobian(n: nat, h: V3, zhat: V3, inv: real): (C: Mat)
    ensures IsMat(C, 3, n)
  {
    Tab(3, n, (i, j) =>
      if j < 3 then EntryOf(MulM(Projector(zhat), Skew(h)), i, j) * inv
      else if 6 <= j then -(EntryOf(Projector(zhat), i, j - 6) * inv)
      else 0.0)
  }

  datatype Prediction = Prediction(zhat: V3, H: Mat)

  function Predicted(lib: Libm, n: nat, h: V3, aw: Option<V3>): Prediction {
    if aw.Some? && Norm(lib, Minus(h, aw.value)) >= 0.5 then
      var v := Minus(h, aw.value);
      var inv := 1.0 / Norm(lib, v);
      var zhat := Times(inv, v);
      Prediction(zhat, WaveJacobian(n, h, zhat, inv))
    else
      Prediction(h, DirJacobian(n, h))
  }

  /** dir_PHt. */
  function PHt(n: nat, m: nat, P: Mat, H: Mat): (C: Mat)
    ensures IsMat(C, n, m)
  {
    Mul(n, n, m, P, T(m, n, H))
  }

  /** dir_S: H P Hᵀ + R. */
  function InnovCov(n: nat, m: nat, P: Mat, H: Mat, Rn: Mat): (C: Mat)
    ensures IsMat(C, m, m)
  {
    Add(m, m, Rn, Mul(m, n, m, H, PHt(n, m, P, H)))
  }

  /** Isotropic noise R·I. */
  function Isotropic(m: nat, R: real): (C: Mat)
    ensures IsMat(C, m, m)
  {
    Diag(m, i => R)
  }

  // ---------- the correction both updates share ----------

  /** m33_reset_jac: I - ½[δθ]×. */
  function ResetJac3(d: V3): M33 {
    M33(V3(1.0, 0.5 * d.z, -0.5 * d.y),
        V3(-0.5 * d.z, 1.0, 0.5 * d.x),
        V3(0.5 * d.y, -0.5 * d.x, 1.0))
  }

  /** diag(G, I, I). */
  function ResetJac(n: nat, d: V3): (C: Mat)
    ensures IsMat(C, n, n)
  {
    Tab(n, n, (i, j) =>
      if i < 3 && j < 3 then EntryOf(ResetJac3(d), i, j) else if i == j then 1.0 else 0.0)
  }

  /** I - K H. */
  function Residual(n: nat, m: nat, K: Mat, H: Mat): (C: Mat)
    ensures IsMat(C, n, n)
  {
    Tab(n, n, (i, j) => (if i == j then 1.0 else 0.0) - At(Mul(n, m, n, K, H), i, j))
  }

  /** Joseph form before the reset: (I-KH) P (I-KH)ᵀ + K R Kᵀ. */
  function Joseph(n: nat, m: nat, A: Mat, P: Mat, K: Mat, Rn: Mat): (C: Mat)
    ensures IsMat(C, n, n)
  {
    Add(n, n, Congruence(n, n, A, P), Congruence(n, m, K, Rn))
  }

  function Symmetrize(n: nat, P: Mat): (C: Mat)
    ensures IsMat(C, n, n)
  {
    Tab(n, n, (i, j) => 0.5 * (At(P, i, j) + At(P, j, i)))
  }

  /** Gain K, Jacobian H, innovation nu, noise Rn: inject the correction and contract P. */
  function Correct(lib: Libm, n: nat, m: nat, s: State, K: Mat, H: Mat, nu: Mat, Rn: Mat): State {
    var dx := Mul(n, m, 1, K, nu);
    var G := ResetJac(n, Sub3(dx, 0));
    var A := Mul(n, n, n, G, Residual(n, m, K, H));
    s.(q := QNormalize(lib, QMul(s.q, QFromRotvec(lib, Sub3(dx, 0)))),
       bias := Plus(s.bias, Sub3(dx, 3)),
       waveAcc := Plus(s.waveAcc, Sub3(dx, 6)),
       P := Symmetrize(n, Joseph(n, m, A, s.P, Mul(n, n, m, G, K), Rn)))
  }

  // ---------- health ----------

  function Ema(ema: real, alpha: real, x: real): real {
    ema + alpha * (x - ema)
  }

  /** nis_record. */
  function NisRecord(ema: real, alpha: real, d2: real, dof: real): real
    requires dof != 0.0
  {
    var v := d2 / dof;
    if !(v >= 0.0) then ema else Ema(ema, alpha, if v > 100.0 then 100.0 else v)
  }

  /** gate_health. */
  function GateHealth(a: Aux, alpha: real, w: real, rej: real): Aux {
    a.(health := a.health.(weight := Ema(a.health.weight, alpha, w), reject := Ema(a.health.reject, alpha, rej)))
  }

  datatype Channel = AccelChannel | MagChannel

  function RecordNis(a: Aux, ch: Channel, alpha: real, d2: real, dof: real): Aux
    requires dof != 0.0
  {
    match ch
    case AccelChannel => a.(health := a.health.(nisAccel := NisRecord(a.health.nisAccel, alpha, d2, dof)))
    case MagChannel => a.(health := a.health.(nisMag := NisRecord(a.health.nisMag, alpha, d2, dof)))
  }

  /** The Huber weight of an innovation at squared distance d2. */
  function HuberWeight(lib: Libm, gate: real, d2: real): real
    requires gate > 0.0
  {
    if d2 > gate then lib.sqrt(gate / d2) else 1.0
  }

  /** mekf_ema_alpha. */
  function EmaAlpha(lib: Libm, dt: real, tau: real): real {
    if !(dt > 0.0) || !(tau > 0.0) then 0.0
    else
      var a := 1.0 - lib.exp(-(dt / tau));
      if a > 1.0 then 1.0 else a
  }

  /** What the innovation gate decided: the averages updated, and a weight unless it threw the sample out. */
  datatype Verdict = Verdict(aux: Aux, weight: Option<real>)

  function Judge(lib: Libm, a: Aux, ch: Channel, alpha: real, gate: real, d2: real, dof: real): Verdict
    requires gate > 0.0 && dof != 0.0
  {
    var a1 := RecordNis(a, ch, alpha, d2, dof);
    if d2 > GROSS_REJECT_MULT * gate then Verdict(GateHealth(a1, alpha, 0.0, 1.0), None)
    else
      var w := HuberWeight(lib, gate, d2);
      Verdict(GateHealth(a1, alpha, w, 0.0), Some(w))
  }

  // ---------- eskf_update ----------

  datatype Outcome = Applied | Singular | Rejected

  /** Attitude rows of K made orthogonal to p; the other rows untouched. */
  function Protect(n: nat, K: Mat, p: V3): (C: Mat)
    ensures IsMat(C, n, 3)
  {
    Tab(n, 3, (i, j) =>
      At(K, i, j) - Entry(p, i) * (p.x * At(K, 0, j) + p.y * At(K, 1, j) + p.z * At(K, 2, j)))
  }

  function Gain(n: nat, P: Mat, H: Mat, Sinv: M33): (C: Mat)
    ensures IsMat(C, n, 3)
  {
    Mul(n, 3, 3, PHt(n, 3, P, H), FromM33(Sinv))
  }

  function GainUsed(n: nat, K: Mat, protect: Option<V3>): Mat {
    if protect.Some? then Protect(n, K, protect.value) else K
  }

  /** The inverse innovation covariance, when m33_inv finds one. */
  function InnovInverse(n: nat, P: Mat, H: Mat, Rn: Mat): Option<M33> {
    Inv(ToM33(InnovCov(n, 3, P, H, Rn)))
  }

  /** The innovation's squared distance νᵀ S⁻¹ ν. */
  function Distance(nu: V3, Sinv: M33): real {
    Dot(nu, MulV(Sinv, nu))
  }

  /** eskf_update with its gate always set, as both callers have it. */
  function EskfUpdate(lib: Libm, n: nat, s: State, h: V3, z: V3, Rn: Mat, ch: Channel, alpha: real,
                      aw: Option<V3>, protect: Option<V3>): (State, Outcome)
  {
    var pr := Predicted(lib, n, h, aw);
    var Sinv := InnovInverse(n, s.P, pr.H, Rn);
    if Sinv.None? then (s, Singular)
    else
      var nu := Minus(z, pr.zhat);
      var v := Judge(lib, s.aux, ch, alpha, ACCEL_CHI2_GATE, Distance(nu, Sinv.value), 2.0);
      if v.weight.None? then (s.(aux := v.aux), Rejected)
      else
        var K := GainUsed(n, Gain(n, s.P, pr.H, Sinv.value), protect);
        (Correct(lib, n, 3, s.(aux := v.aux), K, pr.H, Col(Times(v.weight.value, nu)), Rn), Applied)
  }

  // ---------- eskf_update_yaw ----------

  function YawJacobian(n: nat, r2: V3): (C: Mat)
    ensures IsMat(C, 1, n)
  {
    Tab(1, n, (i, j) => -Entry(r2, j))
  }

  function YawInnovVar(n: nat, P: Mat, H: Mat, R: real): real {
    At(InnovCov(n, 1, P, H, Isotropic(1, R)), 0, 0)
  }

  function YawGain(n: nat, P: Mat, H: Mat, S: real): (C: Mat)
    requires S != 0.0
    ensures IsMat(C, n, 1)
  {
    Tab(n, 1, (i, j) => At(PHt(n, 1, P, H), i, 0) / S)
  }

  function YawDistance(y: real, S: real): real
    requires S != 0.0
  {
    y * y / S
  }

  function Weighted(y: real, w: real): (C: Mat)
    ensures IsMat(C, 1, 1)
  {
    Tab(1, 1, (i, j) => y * w)
  }

  function EskfUpdateYaw(lib: Libm, n: nat, s: State, y: real, R: real): (State, Outcome) {
    var H := YawJacobian(n, QToR(s.q).r2);
    var S := YawInnovVar(n, s.P, H, R);
    if S < 0.000000000001 then (s, Singular)
    else
      var v := Judge(lib, s.aux, MagChannel, s.aux.tun.nisMagAlpha, YAW_CHI2_GATE, YawDistance(y, S), 1.0);
      if v.weight.None? then (s.(aux := v.aux), Rejected)
      else
        (Correct(lib, n, 1, s.(aux := v.aux), YawGain(n, s.P, H, S), H, Weighted(y, v.weight.value), Isotropic(1, R)),
         Applied)
  }

  // ---------- tuning, reset, init ----------

  function Max(a: real, b: real): real {
    if b > a then b else a
  }

  function ConvThresh(lib: Libm, waveEnabled: bool, waveSig2: real): real {
    var deg :=
      if waveEnabled then
        var sg := lib.sqrt(waveSig2);
        var sgc := if sg > 0.5 then 0.5 else sg;
        Max(0.5, 0.30 * lib.asin(sgc) * (180.0 / PI))
      else 0.5;
    3.0 * Sq(deg * (PI / 180.0))
  }

  /** mekf_derive_tuning, from the rates the filter holds and the configuration. */
  function DeriveTuning(lib: Libm, dt: real, magOdr: real, c: Config): Tuning
    requires dt > 0.0
  {
    var odr := 1.0 / dt;
    var wsig := c.waveAccel / G_MS2;
    var dsig := c.dipSigmaDeg * (PI / 180.0);
    var enabled := c.waveAccel > 0.0 && c.waveTau > 0.0;
    var gateAlpha := 1.0 / (GATE_TAU_S * odr);
    Tuning(c.gyroNoise * c.gyroNoise * dt, c.gyroBias * c.gyroBias * dt,
           (c.accelNoise / G_MS2) * (c.accelNoise / G_MS2) * odr, c.magNoise * c.magNoise * magOdr,
           c.waveTau, wsig * wsig, enabled, if dsig > 0.0 then dsig * dsig else 0.0,
           1.0 - c.skipThresh, 1.0 + c.skipThresh, c.rejectGauss * c.rejectGauss, c.yawOnly,
           c.fuseUncal, c.uncalReject,
           if magOdr > 0.0 then 1.0 / (MREF_TAU_S * magOdr) else 0.0,
           gateAlpha,
           if magOdr > 0.0 then 1.0 / (GATE_TAU_S * magOdr) else gateAlpha,
           ConvThresh(lib, enabled, wsig * wsig))
  }

  /** The diagonal mekf_reset_state writes. */
  function InitialVariance(t: Tuning, i: int): real {
    if i < 3 then Sq(0.175) else if i < 6 then Sq(0.001) else if t.waveEnabled then t.waveSig2 else 0.0
  }

  function InitialCov(n: nat, t: Tuning): (C: Mat)
    ensures IsMat(C, n, n)
  {
    Diag(n, i => InitialVariance(t, i))
  }

  /** mekf_reset_state. */
  function ResetState(n: nat, s: State): State {
    s.(q := Quat(1.0, 0.0, 0.0, 0.0), bias := s.aux.biasInit, waveAcc := ORIGIN,
       P := InitialCov(n, s.aux.tun))
  }

  /** mekf_init. */
  function InitState(lib: Libm, n: nat, c: Config, odr: real, magOdr: real, bias: V3): State
    requires odr > 0.0
  {
    var dt := 1.0 / odr;
    var aux := Aux(dt, magOdr, bias, ORIGIN, false, ORIGIN, 0, false, false, false, 0,
                   DeriveTuning(lib, dt, magOdr, c), 1.0, 0.0, false, 0.0, false, ORIGIN, false, 0,
                   Health(0.0, 0.0, 1.0, 0.0, 0.0, 1.0, 1.0, 1.0));
    ResetState(n, State(Quat(1.0, 0.0, 0.0, 0.0), ORIGIN, ORIGIN, [], aux))
  }

  /** The wave block's diagonal written over, as when the wave state is switched on. */
  function Seeded(n: nat, P: Mat, sig2: real): (C: Mat)
    ensures IsMat(C, n, n)
  {
    Tab(n, n, (i, j) => if i == j && 6 <= i then sig2 else At(P, i, j))
  }

  /** The wave block's rows and columns zeroed, as when it is switched off. */
  function Cleared(n: nat, P: Mat): (C: Mat)
    ensures IsMat(C, n, n)
  {
    Tab(n, n, (i, j) => if 6 <= i || 6 <= j then 0.0 else At(P, i, j))
  }

  /** mekf_reconfigure. */
  function Reconfigure(lib: Libm, n: nat, s: State, c: Config): State
    requires s.aux.dt > 0.0
  {
    var was := s.aux.tun.waveEnabled;
    var t := DeriveTuning(lib, s.aux.dt, s.aux.magOdr, c);
    var s1 := s.(aux := s.aux.(tun := t));
    if t.waveEnabled && !was then
      s1.(P := Seeded(n, s.P, t.waveSig2))
    else if !t.waveEnabled && was then
      s1.(P := Cleared(n, s.P), waveAcc := ORIGIN)
    else s1
  }

  /** mekf_sanitize once it has found a non-finite value. */
  function SanitizeReset(n: nat, s: State): State {
    var s1 := ResetState(n, s);
    s1.(aux := s1.aux.(initialized := false, converged := false, mRefValid := false, mrefN := 0,
                       mrefSum := ORIGIN, stateReset := true,
                       resetCount := if s.aux.resetCount < 0xFFFF_FFFF then s.aux.resetCount + 1 else s.aux.resetCount))
  }

  function Horizontal(lib: Libm, v: V3): real {
    lib.sqrt(v.x * v.x + v.y * v.y)
  }

  /** v with its horizontal part scaled by k and its vertical part replaced. */
  function Reshaped(v: V3, k: real, vertical: real): V3 {
    V3(v.x * k, v.y * k, vertical)
  }

  /** mekf_set_mref_invariants. */
  function SetMrefInvariants(lib: Libm, s: State, hGauss: real, zGauss: real): State {
    if !s.aux.mRefValid || hGauss <= 0.0 then s
    else
      var mh := Horizontal(lib, s.aux.mRef);
      if mh < 0.000001 then s
      else s.(aux := s.aux.(mRef := Reshaped(s.aux.mRef, hGauss / mh, zGauss)))
  }

  // ---------- mekf_align ----------

  function TiltQuat(lib: Libm, roll: real, pitch: real): Quat {
    var cr, sr := lib.cos(roll * 0.5), lib.sin(roll * 0.5);
    var cp, sp := lib.cos(pitch * 0.5), lib.sin(pitch * 0.5);
    Quat(cp * cr, cp * sr, sp * cr, -(sp * sr))
  }

  function YawQuat(lib: Libm, half: real): Quat {
    Quat(lib.cos(half), 0.0, 0.0, lib.sin(half))
  }

  function Roll(lib: Libm, g: V3): real {
    lib.atan2(g.y, g.z)
  }

  function Pitch(lib: Libm, g: V3): real {
    lib.atan2(-g.x, lib.sqrt(g.y * g.y + g.z * g.z))
  }

  /** The attitude that puts the gravity direction g straight down, heading zero. */
  function GravityTilt(lib: Libm, g: V3): Quat {
    QNormalize(lib, TiltQuat(lib, Roll(lib, g), Pitch(lib, g)))
  }

  /** -a/|a|: the gravity direction a specific force shows. */
  function GravityDirection(acc: V3, an: real): V3
    requires an != 0.0
  {
    V3(-acc.x / an, -acc.y / an, -acc.z / an)
  }

  function Unitized(v: V3, n: real): V3
    requires n != 0.0
  {
    V3(v.x / n, v.y / n, v.z / n)
  }

  /** Heading of the field once levelled; zero with no field. */
  function MagYaw(lib: Libm, tilt: Quat, mag: Option<V3>): real {
    if mag.Some? then
      var m := MulV(QToR(tilt), mag.value);
      lib.atan2(-m.y, m.x)
    else 0.0
  }

  function YawTurn(lib: Libm, half: real, q: Quat): Quat {
    QNormalize(lib, QMul(YawQuat(lib, half), q))
  }

  function AlignedAttitude(lib: Libm, g: V3, mag: Option<V3>): Quat {
    var tilt := GravityTilt(lib, g);
    YawTurn(lib, MagYaw(lib, tilt, mag) * 0.5, tilt)
  }

  function Align(lib: Libm, s: State, accel: V3, mag: Option<V3>): State {
    var an := Norm(lib, accel);
    if an < 0.5 * G_MS2 then s
    else
      var q := AlignedAttitude(lib, GravityDirection(accel, an), mag);
      var aux := if mag.Some? && !s.aux.mRefValid
                 then s.aux.(mRef := Times(0.01, MulV(QToR(q), mag.value)), mRefValid := true)
                 else s.aux;
      s.(q := q, aux := aux.(initialized := true))
  }

  // ---------- mekf_predict ----------

  /** Φ: attitude rows turned by -[ω]dt and fed the bias, wave block φ. */
  function PhiAt(w: V3, dt: real, phi: real, i: int, j: int): real {
    if i < 3 && j < 3 then (if i == j then 1.0 else -(EntryOf(Skew(w), i, j) * dt))
    else if i < 3 && j == i + 3 then -dt
    else if i == j then (if i < 6 then 1.0 else phi)
    else 0.0
  }

  function Phi(n: nat, w: V3, dt: real, phi: real): (C: Mat)
    ensures IsMat(C, n, n)
  {
    Tab(n, n, (i, j) => PhiAt(w, dt, phi, i, j))
  }

  function ProcessNoise(t: Tuning, qscale: real, qw: real, i: int): real {
    if i < 3 then t.Qg * qscale else if i < 6 then t.Qb * qscale else if t.waveEnabled then qw else 0.0
  }

  function NoiseDiagonal(t: Tuning, qscale: real, qw: real): int -> real {
    i => ProcessNoise(t, qscale, qw, i)
  }

  function WavePhi(lib: Libm, t: Tuning, dt: real): real
    requires t.waveEnabled ==> t.waveTau > 0.0
  {
    if t.waveEnabled then lib.exp(-(dt / t.waveTau)) else 1.0
  }

  function WaveNoise(lib: Libm, t: Tuning, dt: real): real
    requires t.waveEnabled ==> t.waveTau > 0.0
  {
    if t.waveEnabled then -t.waveSig2 * (lib.exp(-(2.0 * dt / t.waveTau)) - 1.0) else 0.0
  }

  function PredictCov(n: nat, P: Mat, Ph: Mat, Q: int -> real): (C: Mat)
    ensures IsMat(C, n, n)
  {
    Symmetrize(n, Add(n, n, Congruence(n, n, Ph, P), Diag(n, Q)))
  }

  function Predict(lib: Libm, n: nat, s: State, gyro: V3, dtS: real): State
    requires Runnable(s)
  {
    if !s.aux.initialized then s
    else
      var t := s.aux.tun;
      var dt := if dtS > 0.0 then dtS else s.aux.dt;
      var w := Minus(gyro, s.bias);
      var phi := WavePhi(lib, t, dt);
      var qw := WaveNoise(lib, t, dt);
      var qs := dt / s.aux.dt;
      var P := PredictCov(n, s.P, Phi(n, w, dt, phi), NoiseDiagonal(t, qs, qw));
      s.(q := QNormalize(lib, QMul(s.q, QFromRotvec(lib, Times(dt, w)))),
         P := P,
         waveAcc := if t.waveEnabled then Times(phi, s.waveAcc) else s.waveAcc,
         aux := s.aux.(converged := At(P, 0, 0) + At(P, 1, 1) + At(P, 2, 2) < t.convThresh))
  }

  // ---------- mekf_update_accel ----------

  /** Specific force with the centripetal part of a turn removed. */
  function SpecificForce(s: State, m: ImuSample): V3 {
    if s.aux.speed > 0.1 then Unturned(m.accel, m.gyro.y - s.bias.y, m.gyro.z - s.bias.z, s.aux.speed) else m.accel
  }

  /** a - ω × v for v along the bow. */
  function Unturned(acc: V3, wy: real, wz: real, speed: real): V3 {
    V3(acc.x, acc.y - wz * speed, acc.z + wy * speed)
  }

  function AccelUsable(lib: Libm, s: State, m: ImuSample): bool {
    var an := Norm(lib, SpecificForce(s, m));
    var ag := an / G_MS2;
    !(an < 0.000001) && !(ag < s.aux.tun.skipLo) && !(ag > s.aux.tun.skipHi)
  }

  /** The bookkeeping every accel sample gets, usable or not. */
  function AccelBookkeeping(lib: Libm, a: Aux, ag: real): Aux {
    var dev := ag - 1.0;
    a.(health := a.health.(quiet := Ema(a.health.quiet, a.dt / 2.0, Sq(dev)),
                           dtAccum := a.health.dtAccum + a.dt))
  }

  function AccelVariance(a: Aux): real {
    a.tun.Ra * a.raScale
  }

  function UpdateAccel(lib: Libm, n: nat, s: State, m: ImuSample): State {
    if !s.aux.initialized then s
    else
      var acc := SpecificForce(s, m);
      var an := Norm(lib, acc);
      var a1 := AccelBookkeeping(lib, s.aux, an / G_MS2);
      if !AccelUsable(lib, s, m) then s.(aux := a1)
      else
        var h := QToR(s.q).r2;
        var z := GravityDirection(acc, an);
        var alpha := EmaAlpha(lib, a1.health.dtAccum, GATE_TAU_S);
        var a2 := a1.(health := a1.health.(dtAccum := 0.0), gBody := z, gBodyValid := true);
        EskfUpdate(lib, n, s.(aux := a2), h, z, Isotropic(3, AccelVariance(a2)), AccelChannel, alpha,
                   if a2.tun.waveEnabled then Some(s.waveAcc) else None, Some(h)).0
  }

  // ---------- mekf_update_mag ----------

  function MeanOf(sum: V3, cnt: nat): V3
    requires cnt > 0
  {
    V3(sum.x / cnt as real, sum.y / cnt as real, sum.z / cnt as real)
  }

  /** Turn about the vertical that puts the field's bearing at zero. */
  function NorthTurn(lib: Libm, mean: V3, q: Quat): Quat {
    YawTurn(lib, -0.5 * lib.atan2(mean.y, mean.x), q)
  }

  function WindowFull(a: Aux, cnt: nat): bool {
    !(cnt as real < a.magOdr * MREF_ACQUIRE_S)
  }

  /** mref_acquire: sum level-frame samples, then take their mean as the reference. */
  function MrefAcquire(lib: Libm, s: State, m: MagSample): State {
    var sum := Plus(s.aux.mrefSum, Times(0.01, MulV(QToR(s.q), m.field)));
    var cnt := s.aux.mrefN + 1;
    if !WindowFull(s.aux, cnt) then s.(aux := s.aux.(mrefSum := sum, mrefN := cnt))
    else
      var mean := MeanOf(sum, cnt);
      var a1 := s.aux.(mrefSum := ORIGIN, mrefN := 0);
      var mh := Horizontal(lib, mean);
      if mh < 0.000001 then s.(aux := a1)
      else
        s.(q := NorthTurn(lib, mean, s.q), aux := a1.(mRef := V3(mh, 0.0, mean.z), mRefValid := true))
  }

  function WrapDown(y: real): real
    decreases y
  {
    if y > PI then WrapDown(y - 2.0 * PI) else y
  }

  function WrapUp(y: real): real
    decreases -y
  {
    if y < -PI then WrapUp(y + 2.0 * PI) else y
  }

  function HeadingInnov(lib: Libm, mNed: V3, mRef: V3): real {
    WrapUp(WrapDown(lib.atan2(mNed.y, mNed.x) - lib.atan2(mRef.y, mRef.x)))
  }

  /** Compass-health averages, fed before any gate. */
  function MagHealth(lib: Libm, a: Aux, mNed: V3, zMag: real, hMag: real): Aux
    requires hMag != 0.0
  {
    var alpha := 1.0 / 3000.0;
    var hl := a.health.(magAnom := Ema(a.health.magAnom, alpha, Abs(zMag - hMag) / hMag));
    if Horizontal(lib, a.mRef) > 0.2 * hMag && Horizontal(lib, mNed) > 0.2 * hMag then
      a.(health := hl.(magResid := Ema(hl.magResid, alpha, Abs(HeadingInnov(lib, mNed, a.mRef)))))
    else a.(health := hl)
  }

  function CosFromSin(lib: Libm, sine: real): real {
    lib.sqrt(1.0 - sine * sine)
  }

  function Clamp(x: real): real {
    if x > 1.0 then 1.0 else if x < -1.0 then -1.0 else x
  }

  /** The slow re-estimation of the reference's magnitude and dip. */
  function LearnReference(lib: Libm, a: Aux, mb: V3, zMag: real, resSq: real, uncal: bool): Aux
    requires zMag != 0.0
  {
    if Learns(a, resSq, uncal) then a.(mRef := Learned(lib, a, mb, zMag)) else a
  }

  predicate Learns(a: Aux, resSq: real, uncal: bool) {
    !uncal && a.tun.mrefAlpha > 0.0 && a.gBodyValid && resSq < 0.1 && a.health.quiet < 0.0002
  }

  /** The reference field drawn towards the strength and dip of a reading. */
  function Learned(lib: Libm, a: Aux, mb: V3, zMag: real): V3
    requires zMag != 0.0
  {
    var sinDip := Clamp(Over(Dot(mb, a.gBody), zMag));
    var cosDip := CosFromSin(lib, sinDip);
    var mh := Horizontal(lib, a.mRef);
    var v := Ema(a.mRef.z, a.tun.mrefAlpha, Prod(zMag, sinDip));
    if mh > 0.000001 then Reshaped(a.mRef, Ema(1.0, a.tun.mrefAlpha, Over(Prod(zMag, cosDip), mh)), v)
    else V3(a.mRef.x, a.mRef.y, v)
  }

  /** The hysteresis that withdraws an uncalibrated magnetometer. */
  function Withdrawal(a: Aux, ratio: real): Aux {
    var limit := a.tun.uncalReject * ratio;
    var withdrawn :=
      if !a.uncalWithdrawn && a.health.magAnom > limit then true
      else if a.uncalWithdrawn && a.health.magAnom < 0.8 * limit then false
      else a.uncalWithdrawn;
    a.(uncalLimit := limit, uncalWithdrawn := withdrawn)
  }

  /** R = Rm·I + σ²·u·uᵀ. */
  function RankOneNoise(R: real, sig2: real, u: V3): (C: Mat)
    ensures IsMat(C, 3, 3)
  {
    Tab(3, 3, (i, j) => (if i == j then R else 0.0) + sig2 * Entry(u, i) * Entry(u, j))
  }

  /** Noise of the 3-D update: isotropic, or with the dip direction's rank-one term. */
  function DipNoise(lib: Libm, a: Aux, R: M33, h: V3, hMag: real, mh: real, Rm: real): (C: Mat)
    requires hMag > 0.0
    ensures IsMat(C, 3, 3)
  {
    if a.tun.dipSig2 > 0.0 && mh > 0.2 * hMag then
      var aBody := TMulV(R, V3(a.mRef.y / mh, -a.mRef.x / mh, 0.0));
      var u := Cross(aBody, h);
      var un := Norm(lib, u);
      if un > 0.000001 then RankOneNoise(Rm, a.tun.dipSig2, Unitized(u, un))
      else Isotropic(3, Rm)
    else Isotropic(3, Rm)
  }

  /** Field noise as a variance of the field's direction. */
  function DirectionVariance(Rm: real, mag: real): real
    requires mag > 0.0
  {
    Rm / PositiveProduct(mag, mag)
  }

  function Accept(r: (State, Outcome)): State {
    if r.1 == Applied then r.0.(aux := r.0.aux.(accepted := r.0.aux.accepted + 1)) else r.0
  }

  /** The residual chord is too long on the channel that would be fused. */
  predicate Anomalous(lib: Libm, t: Tuning, mh: real, hMag: real, y: real, resSq: real)
    requires hMag > 0.0
  {
    if t.yawOnly then 2.0 * mh * mh * (1.0 - lib.cos(y)) > t.rejectSq
    else resSq > t.rejectSq / PositiveProduct(hMag, hMag)
  }

  /** The part of mekf_update_mag after its gates on the reference: choose an update and run it. */
  function MagFuse(lib: Libm, n: nat, s: State, uncal: bool, R: M33, mNed: V3, h: V3, z: V3, hMag: real, resSq: real): State
    requires hMag > 0.0
  {
    var a := s.aux;
    var mh := Horizontal(lib, a.mRef);
    var hdgOk := mh >= 0.2 * hMag && Horizontal(lib, mNed) >= 0.2 * hMag;
    var y := if hdgOk then HeadingInnov(lib, mNed, a.mRef) else 0.0;
    if !uncal && a.converged && Anomalous(lib, a.tun, mh, hMag, y, resSq) then s
    else if a.tun.yawOnly || uncal then
      if !hdgOk then s else FuseYaw(lib, n, s, uncal, y, mh, hMag)
    else FuseVector(lib, n, s, R, h, z, hMag, mh)
  }

  /** Heading-only fusion, unless an uncalibrated magnetometer stands withdrawn. */
  function FuseYaw(lib: Libm, n: nat, s: State, uncal: bool, y: real, mh: real, hMag: real): State
    requires mh > 0.0 && hMag > 0.0
  {
    var a := s.aux;
    var a2 := if uncal && a.tun.uncalReject > 0.0 then Withdrawal(a, mh / hMag) else a;
    if uncal && a.tun.uncalReject > 0.0 && a2.uncalWithdrawn then s.(aux := a2)
    else Accept(EskfUpdateYaw(lib, n, s.(aux := a2), y, DirectionVariance(a.tun.Rm, mh)))
  }

  /** Fusion of the whole field direction. */
  function FuseVector(lib: Libm, n: nat, s: State, R: M33, h: V3, z: V3, hMag: real, mh: real): State
    requires hMag > 0.0
  {
    var Rm := DirectionVariance(s.aux.tun.Rm, hMag);
    Accept(EskfUpdate(lib, n, s, h, z, DipNoise(lib, s.aux, R, h, hMag, mh, Rm), MagChannel, s.aux.tun.nisMagAlpha, None, None))
  }

  function UpdateMag(lib: Libm, n: nat, s: State, m: MagSample): State {
    if !s.aux.initialized || !m.valid then s
    else if !s.aux.mRefValid then MrefAcquire(lib, s, m)
    else if !m.calibrated && !s.aux.tun.fuseUncal then s
    else
      var uncal := !m.calibrated;
      var s1 := if uncal then s.(aux := s.aux.(uncalSeen := true)) else s;
      var mb := Times(0.01, m.field);
      var R := QToR(s.q);
      var hRaw := TMulV(R, s.aux.mRef);
      var hMag := Norm(lib, hRaw);
      var zMag := Norm(lib, mb);
      if hMag < 0.000001 || zMag < 0.000001 then s1
      else
        var h := Unitized(hRaw, hMag);
        var z := Unitized(mb, zMag);
        var d := Minus(z, h);
        var resSq := Dot(d, d);
        var mNed := MulV(R, mb);
        var a2 := MagHealth(lib, s1.aux, mNed, zMag, hMag);
        var ratio := zMag / hMag;
        if ratio < 0.5 || ratio > 2.0 || resSq > 4.0 then s1.(aux := a2)
        else MagFuse(lib, n, s1.(aux := LearnReference(lib, a2, mb, zMag, resSq, uncal)), uncal, R, mNed, h, z, hMag, resSq)
  }
}
