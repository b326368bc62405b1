/**
 What every run of the filter keeps: a unit attitude, a symmetric positive semidefinite
 covariance, and a wave block that is exactly zero while it is disabled.
 */
module FusionRuns {
  import opened FusionMath
  import opened Sums
  import opened Matrix
  import opened Fusion

  // ---------- runs ----------

  /** One call on the filter, or one store the fusion thread makes into it. */
  datatype Op =
    | AlignOp(accel: V3, mag: Option<V3>)
    | PredictOp(gyro: V3, dt: real)
    | AccelOp(imu: ImuSample)
    | MagOp(sample: MagSample)
    | ReconfigureOp(cfg: Config)
    | SanitizeOp
    | InvariantsOp(hGauss: real, zGauss: real)
    | SpeedOp(mps: real)
    | VibrationOp(lo: real, hi: real, scale: real)

  predicate ValidOp(op: Op) {
    op.VibrationOp? ==> op.scale >= 0.0
  }

  function Step(lib: Libm, n: nat, s: State, op: Op): State
    requires Runnable(s)
  {
    match op
    case AlignOp(a, m) => Align(lib, s, a, m)
    case PredictOp(g, dt) => Predict(lib, n, s, g, dt)
    case AccelOp(m) => UpdateAccel(lib, n, s, m)
    case MagOp(m) => UpdateMag(lib, n, s, m)
    case ReconfigureOp(c) => Reconfigure(lib, n, s, c)
    case SanitizeOp => SanitizeReset(n, s)
    case InvariantsOp(h, z) => SetMrefInvariants(lib, s, h, z)
    case SpeedOp(v) => s.(aux := s.aux.(speed := v))
    case VibrationOp(lo, hi, k) =>
      s.(aux := s.aux.(tun := s.aux.tun.(skipLo := lo, skipHi := hi), raScale := k))
  }

  // ---------- the invariant ----------

  predicate Dims(n: nat) {
    n == 6 || n == 9
  }

  /** Rows and columns 6 and up are zero. */
  predicate Supported(n: nat, P: Mat) {
    forall i, j :: 0 <= i < n && 0 <= j < n && (6 <= i || 6 <= j) ==> At(P, i, j) == 0.0
  }

  ghost predicate Covariance(n: nat, P: Mat) {
    IsMat(P, n, n) && Symmetric(n, P) && Psd(n, P)
  }

  /** The tuning a run can leave behind. */
  predicate GoodAux(a: Aux) {
    && a.dt > 0.0
    && a.magOdr >= 0.0
    && (a.tun.waveEnabled ==> a.tun.waveTau > 0.0)
    && a.tun.Qg >= 0.0 && a.tun.Qb >= 0.0 && a.tun.Ra >= 0.0 && a.tun.Rm >= 0.0
    && a.tun.waveSig2 >= 0.0 && a.tun.dipSig2 >= 0.0 && a.raScale >= 0.0
  }

  /** Unit attitude, a covariance, and a wave block that is zero unless it is in use. */
  ghost predicate GoodEstimate(n: nat, waveOn: bool, q: Quat, waveAcc: V3, P: Mat) {
    && Unit(q)
    && Covariance(n, P)
    && (!waveOn ==> waveAcc == ORIGIN && Supported(n, P))
  }

  ghost predicate Good(lib: Libm, n: nat, s: State) {
    && lib.Valid()
    && Dims(n)
    && GoodAux(s.aux)
    && GoodEstimate(n, s.aux.tun.waveEnabled, s.q, s.waveAcc, s.P)
  }

  // ---------- symmetrization is the identity on what reaches it ----------

  lemma SymmetrizeSymmetric(n: nat, P: Mat)
    requires IsMat(P, n, n) && Symmetric(n, P)
    ensures Symmetrize(n, P) == P
  {
    forall i, j | 0 <= i < n && 0 <= j < n ensures At(Symmetrize(n, P), i, j) == At(P, i, j) {
      assert At(P, i, j) == At(P, j, i);
    }
    MatEq(Symmetrize(n, P), P, n, n);
  }

  lemma DiagSymmetric(n: nat, d: int -> real)
    ensures Symmetric(n, Diag(n, d))
  {}

  // ---------- Joseph form ----------

  lemma CongruenceCovariance(m: nat, n: nat, A: Mat, P: Mat)
    requires IsMat(A, m, n) && Covariance(n, P)
    ensures Covariance(m, Congruence(m, n, A, P))
  {
    hide Congruence, Psd, Symmetric;
    PsdCongruence(m, n, A, P);
    SymmetricCongruence(m, n, A, P);
  }

  lemma AddCovariance(n: nat, P: Mat, Q: Mat)
    requires Covariance(n, P) && Covariance(n, Q)
    ensures Covariance(n, Add(n, n, P, Q))
  {
    hide Psd, Symmetric;
    PsdAdd(n, P, Q);
    SymmetricAdd(n, P, Q);
  }

  /** Joseph form gives a covariance for any gain at all. */
  lemma JosephCovariance(n: nat, m: nat, A: Mat, P: Mat, K: Mat, Rn: Mat)
    requires IsMat(A, n, n) && IsMat(K, n, m) && Covariance(n, P) && Covariance(m, Rn)
    ensures Covariance(n, Joseph(n, m, A, P, K, Rn))
    ensures Symmetrize(n, Joseph(n, m, A, P, K, Rn)) == Joseph(n, m, A, P, K, Rn)
  {
    hide Congruence, Add, Psd, Symmetric, Symmetrize;
    CongruenceCovariance(n, n, A, P);
    CongruenceCovariance(n, m, K, Rn);
    AddCovariance(n, Congruence(n, n, A, P), Congruence(n, m, K, Rn));
    SymmetrizeSymmetric(n, Joseph(n, m, A, P, K, Rn));
  }

  lemma IsotropicCovariance(m: nat, R: real)
    requires R >= 0.0
    ensures Covariance(m, Isotropic(m, R))
  {
    hide Psd, Symmetric;
    PsdDiag(m, i => R);
    DiagSymmetric(m, i => R);
  }

  /** The reset folded into K and I-KH is the reset applied to the Joseph form. */
  lemma CongruenceCompose(n: nat, m: nat, G: Mat, A: Mat, P: Mat)
    requires IsMat(A, n, m)
    ensures Congruence(n, m, Mul(n, n, m, G, A), P) == Congruence(n, n, G, Congruence(n, m, A, P))
  {
    hide Mul, T;
    var Tg, Ta := T(n, n, G), T(n, m, A);
    TMul(n, n, m, G, A);
    MulAssoc(n, n, m, m, G, A, P);
    MulAssoc(n, n, m, n, G, Mul(n, m, m, A, P), Mul(m, n, n, Ta, Tg));
    MulAssoc(n, m, n, n, Mul(n, m, m, A, P), Ta, Tg);
    MulAssoc(n, n, n, n, G, Mul(n, m, n, Mul(n, m, m, A, P), Ta), Tg);
  }

  lemma CongruenceAdd(n: nat, G: Mat, P: Mat, Q: Mat)
    ensures Congruence(n, n, G, Add(n, n, P, Q)) == Add(n, n, Congruence(n, n, G, P), Congruence(n, n, G, Q))
  {
    hide Mul, T, Add;
    MulAddRight(n, n, n, G, P, Q);
    MulAddLeft(n, n, n, Mul(n, n, n, G, P), Mul(n, n, n, G, Q), T(n, n, G));
  }

  lemma ResetFolded(n: nat, m: nat, G: Mat, A: Mat, P: Mat, K: Mat, Rn: Mat)
    requires IsMat(A, n, n) && IsMat(K, n, m)
    ensures Joseph(n, m, Mul(n, n, n, G, A), P, Mul(n, n, m, G, K), Rn)
         == Congruence(n, n, G, Joseph(n, m, A, P, K, Rn))
  {
    hide Mul, T, Add, Congruence;
    CongruenceCompose(n, n, G, A, P);
    CongruenceCompose(n, m, G, K, Rn);
    CongruenceAdd(n, G, Congruence(n, n, A, P), Congruence(n, m, K, Rn));
  }

  // ---------- the disabled wave block ----------

  /** No entry couples the first six coordinates with the rest. */
  predicate Split(n: nat, A: Mat) {
    forall i, j :: 0 <= i < n && 0 <= j < n && (i < 6 <= j || j < 6 <= i) ==> At(A, i, j) == 0.0
  }

  predicate RowsVanish(n: nat, m: nat, K: Mat) {
    forall i, j :: 6 <= i < n && 0 <= j < m ==> At(K, i, j) == 0.0
  }

  predicate ColsVanish(m: nat, n: nat, H: Mat) {
    forall i, j :: 0 <= i < m && 6 <= j < n ==> At(H, i, j) == 0.0
  }

  lemma MulZero(r: nat, n: nat, c: nat, A: Mat, B: Mat, i: nat, j: nat)
    requires i < r && j < c
    requires forall k :: 0 <= k < n ==> At(A, i, k) == 0.0 || At(B, k, j) == 0.0
    ensures At(Mul(r, n, c, A, B), i, j) == 0.0
  {
    hide At;
    MulAt(r, n, c, A, B, i, j);
    forall k | 0 <= k < n ensures At(A, i, k) * At(B, k, j) == 0.0 {
      assert At(A, i, k) == 0.0 || At(B, k, j) == 0.0;
    }
    SumZero(n, k => At(A, i, k) * At(B, k, j));
  }

  lemma MulRowsVanish(n: nat, k: nat, m: nat, A: Mat, B: Mat)
    requires RowsVanish(n, k, A)
    ensures RowsVanish(n, m, Mul(n, k, m, A, B))
  {
    hide Mul;
    forall i, j | 6 <= i < n && 0 <= j < m ensures At(Mul(n, k, m, A, B), i, j) == 0.0 {
      MulZero(n, k, m, A, B, i, j);
    }
  }

  lemma MulColsVanish(n: nat, k: nat, m: nat, A: Mat, B: Mat)
    requires ColsVanish(k, m, B)
    ensures ColsVanish(n, m, Mul(n, k, m, A, B))
  {
    hide Mul;
    forall i, j | 0 <= i < n && 6 <= j < m ensures At(Mul(n, k, m, A, B), i, j) == 0.0 {
      MulZero(n, k, m, A, B, i, j);
    }
  }

  lemma SplitRows(n: nat, m: nat, A: Mat, B: Mat)
    requires Split(n, A) && RowsVanish(n, m, B)
    ensures RowsVanish(n, m, Mul(n, n, m, A, B))
  {
    hide Mul;
    forall i, j | 6 <= i < n && 0 <= j < m ensures At(Mul(n, n, m, A, B), i, j) == 0.0 {
      MulZero(n, n, m, A, B, i, j);
    }
  }

  lemma SplitMul(n: nat, A: Mat, B: Mat)
    requires Split(n, A) && Split(n, B)
    ensures Split(n, Mul(n, n, n, A, B))
  {
    hide Mul;
    forall i, j | 0 <= i < n && 0 <= j < n && (i < 6 <= j || j < 6 <= i)
      ensures At(Mul(n, n, n, A, B), i, j) == 0.0
    {
      MulZero(n, n, n, A, B, i, j);
    }
  }

  lemma SupportedIs(n: nat, P: Mat)
    ensures Supported(n, P) <==> RowsVanish(n, n, P) && ColsVanish(n, n, P)
  {}

  /** A split map keeps a covariance supported on the first six coordinates there. */
  lemma SupportedCongruence(n: nat, A: Mat, P: Mat)
    requires Split(n, A) && Supported(n, P)
    ensures Supported(n, Congruence(n, n, A, P))
  {
    hide Mul, T;
    SupportedIs(n, P);
    var AP := Mul(n, n, n, A, P);
    SplitRows(n, n, A, P);
    MulColsVanish(n, n, n, A, P);
    MulRowsVanish(n, n, n, AP, T(n, n, A));
    forall i, j | 0 <= i < n && 6 <= j < n ensures At(Congruence(n, n, A, P), i, j) == 0.0 {
      forall k | 0 <= k < n ensures At(AP, i, k) == 0.0 || At(T(n, n, A), k, j) == 0.0 {
        TAt(n, n, A, k, j);
      }
      MulZero(n, n, n, AP, T(n, n, A), i, j);
    }
    SupportedIs(n, Congruence(n, n, A, P));
  }

  lemma TAt(r: nat, c: nat, A: Mat, i: nat, j: nat)
    requires i < c && j < r
    ensures At(T(r, c, A), i, j) == At(A, j, i)
  {}

  lemma SupportedGainTerm(n: nat, m: nat, K: Mat, Rn: Mat)
    requires RowsVanish(n, m, K)
    ensures Supported(n, Congruence(n, m, K, Rn))
  {
    hide Mul, T;
    MulRowsVanish(n, m, m, K, Rn);
    MulRowsVanish(n, m, n, Mul(n, m, m, K, Rn), T(n, m, K));
    forall i, j | 0 <= i < n && 6 <= j < n ensures At(Congruence(n, m, K, Rn), i, j) == 0.0 {
      forall k | 0 <= k < m ensures At(T(n, m, K), k, j) == 0.0 {
        TAt(n, m, K, k, j);
      }
      MulZero(n, m, n, Mul(n, m, m, K, Rn), T(n, m, K), i, j);
    }
    SupportedIs(n, Congruence(n, m, K, Rn));
  }

  lemma SupportedAdd(n: nat, P: Mat, Q: Mat)
    requires Supported(n, P) && Supported(n, Q)
    ensures Supported(n, Add(n, n, P, Q))
  {}

  lemma ResidualSplit(n: nat, m: nat, K: Mat, H: Mat)
    requires RowsVanish(n, m, K) && ColsVanish(m, n, H)
    ensures Split(n, Residual(n, m, K, H))
  {
    hide Mul;
    MulRowsVanish(n, m, n, K, H);
    MulColsVanish(n, m, n, K, H);
  }

  lemma ResetSplit(n: nat, d: V3)
    ensures Split(n, ResetJac(n, d))
  {}

  lemma JosephSupported(n: nat, m: nat, G: Mat, P: Mat, K: Mat, H: Mat, Rn: Mat)
    requires Split(n, G) && Supported(n, P) && RowsVanish(n, m, K) && ColsVanish(m, n, H)
    ensures Supported(n, Joseph(n, m, Mul(n, n, n, G, Residual(n, m, K, H)), P, Mul(n, n, m, G, K), Rn))
  {
    hide Mul, Add, Congruence, Supported, Split, Residual;
    ResidualSplit(n, m, K, H);
    SplitMul(n, G, Residual(n, m, K, H));
    SplitRows(n, m, G, K);
    SupportedCongruence(n, Mul(n, n, n, G, Residual(n, m, K, H)), P);
    SupportedGainTerm(n, m, Mul(n, n, m, G, K), Rn);
    SupportedAdd(n, Congruence(n, n, Mul(n, n, n, G, Residual(n, m, K, H)), P),
                 Congruence(n, m, Mul(n, n, m, G, K), Rn));
  }

  // ---------- one correction ----------

  /** The covariance a correction leaves. */
  function CorrectedCov(n: nat, m: nat, P: Mat, G: Mat, K: Mat, H: Mat, Rn: Mat): Mat {
    Symmetrize(n, Joseph(n, m, Mul(n, n, n, G, Residual(n, m, K, H)), P, Mul(n, n, m, G, K), Rn))
  }

  lemma CorrectedCovariance(n: nat, m: nat, P: Mat, G: Mat, K: Mat, H: Mat, Rn: Mat)
    requires Covariance(n, P) && Covariance(m, Rn)
    ensures Covariance(n, CorrectedCov(n, m, P, G, K, H, Rn))
  {
    hide Joseph, Mul, Covariance, Symmetrize, Residual;
    JosephCovariance(n, m, Mul(n, n, n, G, Residual(n, m, K, H)), P, Mul(n, n, m, G, K), Rn);
  }

  lemma CorrectedSupported(n: nat, m: nat, P: Mat, G: Mat, K: Mat, H: Mat, Rn: Mat)
    requires Covariance(n, P) && Covariance(m, Rn)
    requires Split(n, G) && Supported(n, P) && RowsVanish(n, m, K) && ColsVanish(m, n, H)
    ensures Supported(n, CorrectedCov(n, m, P, G, K, H, Rn))
  {
    hide Joseph, Mul, Covariance, Symmetrize, Residual, Supported, Split, RowsVanish, ColsVanish;
    JosephCovariance(n, m, Mul(n, n, n, G, Residual(n, m, K, H)), P, Mul(n, n, m, G, K), Rn);
    JosephSupported(n, m, G, P, K, H, Rn);
  }

  lemma CorrectUnit(lib: Libm, n: nat, m: nat, s: State, K: Mat, H: Mat, nu: Mat, Rn: Mat)
    requires lib.Valid() && Unit(s.q)
    ensures Unit(Correct(lib, n, m, s, K, H, nu, Rn).q)
  {
    hide Mul, Sub3, At, Unit, Libm.Valid, QNormalize, QMul, QFromRotvec, Correct, CorrectedCov;
    CorrectParts(lib, n, m, s, K, H, nu, Rn);
    TurnUnit(lib, s.q, Sub3(Mul(n, m, 1, K, nu), 0));
  }

  lemma CorrectCov(lib: Libm, n: nat, m: nat, s: State, K: Mat, H: Mat, nu: Mat, Rn: Mat)
    requires Covariance(n, s.P) && Covariance(m, Rn)
    ensures Covariance(n, Correct(lib, n, m, s, K, H, nu, Rn).P)
  {
    hide Mul, Sub3, At, Covariance, CorrectedCov, ResetJac, Correct;
    CorrectParts(lib, n, m, s, K, H, nu, Rn);
    CorrectedCovariance(n, m, s.P, ResetJac(n, Sub3(Mul(n, m, 1, K, nu), 0)), K, H, Rn);
  }

  lemma CorrectInert(lib: Libm, n: nat, m: nat, s: State, K: Mat, H: Mat, nu: Mat, Rn: Mat)
    requires n <= 9 && Covariance(n, s.P) && Covariance(m, Rn)
    requires s.waveAcc == ORIGIN && Supported(n, s.P) && RowsVanish(n, m, K) && ColsVanish(m, n, H)
    ensures Correct(lib, n, m, s, K, H, nu, Rn).waveAcc == ORIGIN
    ensures Supported(n, Correct(lib, n, m, s, K, H, nu, Rn).P)
  {
    hide Mul, Sub3, At, Covariance, CorrectedCov, ResetJac, Correct, Supported, Split, RowsVanish, ColsVanish;
    var d := Sub3(Mul(n, m, 1, K, nu), 0);
    CorrectParts(lib, n, m, s, K, H, nu, Rn);
    ResetSplit(n, d);
    CorrectedSupported(n, m, s.P, ResetJac(n, d), K, H, Rn);
    WaveStepZero(n, m, K, nu);
  }

  lemma CorrectGood(lib: Libm, n: nat, m: nat, s: State, K: Mat, H: Mat, nu: Mat, Rn: Mat)
    requires Good(lib, n, s) && Covariance(m, Rn)
    requires !s.aux.tun.waveEnabled ==> RowsVanish(n, m, K) && ColsVanish(m, n, H)
    ensures Good(lib, n, Correct(lib, n, m, s, K, H, nu, Rn))
  {
    hide GoodAux, Covariance, Supported, RowsVanish, ColsVanish, Unit, Libm.Valid, Correct;
    CorrectUnit(lib, n, m, s, K, H, nu, Rn);
    CorrectCov(lib, n, m, s, K, H, nu, Rn);
    CorrectAux(lib, n, m, s, K, H, nu, Rn);
    if !s.aux.tun.waveEnabled { CorrectInert(lib, n, m, s, K, H, nu, Rn); }
  }

  lemma CorrectAux(lib: Libm, n: nat, m: nat, s: State, K: Mat, H: Mat, nu: Mat, Rn: Mat)
    ensures Correct(lib, n, m, s, K, H, nu, Rn).aux == s.aux
  {}

  lemma CorrectParts(lib: Libm, n: nat, m: nat, s: State, K: Mat, H: Mat, nu: Mat, Rn: Mat)
    ensures var s' := Correct(lib, n, m, s, K, H, nu, Rn);
            var dx := Mul(n, m, 1, K, nu);
            && s'.q == QNormalize(lib, QMul(s.q, QFromRotvec(lib, Sub3(dx, 0))))
            && s'.bias == Plus(s.bias, Sub3(dx, 3))
            && s'.waveAcc == Plus(s.waveAcc, Sub3(dx, 6))
            && s'.P == CorrectedCov(n, m, s.P, ResetJac(n, Sub3(dx, 0)), K, H, Rn)
            && s'.aux == s.aux
  {
    hide Mul, Joseph, QNormalize, QMul, QFromRotvec, ResetJac, Symmetrize;
  }

  lemma WaveStepZero(n: nat, m: nat, K: Mat, nu: Mat)
    requires n <= 9 && RowsVanish(n, m, K)
    ensures Sub3(Mul(n, m, 1, K, nu), 6) == ORIGIN
  {
    hide Mul;
    MulRowsVanish(n, m, 1, K, nu);
  }

  // ---------- the vector update ----------

  lemma DirColsVanish(n: nat, h: V3)
    ensures ColsVanish(3, n, DirJacobian(n, h))
  {}

  lemma ProtectRowsVanish(n: nat, K: Mat, p: V3)
    requires RowsVanish(n, 3, K)
    ensures RowsVanish(n, 3, Protect(n, K, p))
  {
    hide At;
    forall i, j | 6 <= i < n && 0 <= j < 3 ensures At(Protect(n, K, p), i, j) == 0.0 {
      assert Entry(p, i) == 0.0;
    }
  }

  lemma GainRowsVanish(n: nat, P: Mat, H: Mat, Sinv: M33)
    requires Supported(n, P)
    ensures RowsVanish(n, 3, Gain(n, P, H, Sinv))
  {
    hide Mul, T;
    SupportedIs(n, P);
    MulRowsVanish(n, n, 3, P, T(3, n, H));
    MulRowsVanish(n, 3, 3, PHt(n, 3, P, H), FromM33(Sinv));
  }

  lemma AuxGood(lib: Libm, n: nat, s: State, a: Aux)
    requires Good(lib, n, s) && GoodAux(a) && a.tun.waveEnabled == s.aux.tun.waveEnabled
    ensures Good(lib, n, s.(aux := a))
  {
    hide GoodEstimate, GoodAux;
  }

  lemma JudgeGood(lib: Libm, a: Aux, ch: Channel, alpha: real, gate: real, d2: real, dof: real)
    requires GoodAux(a) && gate > 0.0 && dof != 0.0
    ensures GoodAux(Judge(lib, a, ch, alpha, gate, d2, dof).aux)
    ensures Judge(lib, a, ch, alpha, gate, d2, dof).aux.tun == a.tun
  {
    hide RecordNis, GateHealth, HuberWeight, GoodAux;
    var a1 := RecordNis(a, ch, alpha, d2, dof);
    RecordNisGood(a, ch, alpha, d2, dof);
    GateHealthGood(a1, alpha, 0.0, 1.0);
    GateHealthGood(a1, alpha, HuberWeight(lib, gate, d2), 0.0);
  }

  lemma RecordNisGood(a: Aux, ch: Channel, alpha: real, d2: real, dof: real)
    requires GoodAux(a) && dof != 0.0
    ensures GoodAux(RecordNis(a, ch, alpha, d2, dof)) && RecordNis(a, ch, alpha, d2, dof).tun == a.tun
  {
    hide NisRecord;
  }

  lemma GateHealthGood(a: Aux, alpha: real, w: real, rej: real)
    requires GoodAux(a)
    ensures GoodAux(GateHealth(a, alpha, w, rej)) && GateHealth(a, alpha, w, rej).tun == a.tun
  {
    hide Ema;
  }

  lemma GainUsedVanish(n: nat, P: Mat, H: Mat, Sinv: M33, protect: Option<V3>)
    requires Supported(n, P)
    ensures RowsVanish(n, 3, GainUsed(n, Gain(n, P, H, Sinv), protect))
  {
    hide Gain, Protect;
    GainRowsVanish(n, P, H, Sinv);
    if protect.Some? { ProtectRowsVanish(n, Gain(n, P, H, Sinv), protect.value); }
  }

  lemma PlainPrediction(lib: Libm, n: nat, h: V3)
    ensures Predicted(lib, n, h, None) == Prediction(h, DirJacobian(n, h))
  {
    hide DirJacobian;
  }

  lemma EskfGood(lib: Libm, n: nat, s: State, h: V3, z: V3, Rn: Mat, ch: Channel, alpha: real,
                 aw: Option<V3>, protect: Option<V3>)
    requires Good(lib, n, s) && Covariance(3, Rn) && (!s.aux.tun.waveEnabled ==> aw.None?)
    ensures Good(lib, n, EskfUpdate(lib, n, s, h, z, Rn, ch, alpha, aw, protect).0)
  {
    hide Correct, Covariance, GoodEstimate, GoodAux, RowsVanish, ColsVanish, Libm.Valid, Gain, GainUsed, Judge,
         InnovInverse, Predicted, Distance, Col, Times;
    var pr := Predicted(lib, n, h, aw);
    var Sinv := InnovInverse(n, s.P, pr.H, Rn);
    if Sinv.Some? {
      var nu := Minus(z, pr.zhat);
      var d2 := Distance(nu, Sinv.value);
      JudgeGood(lib, s.aux, ch, alpha, ACCEL_CHI2_GATE, d2, 2.0);
      var v := Judge(lib, s.aux, ch, alpha, ACCEL_CHI2_GATE, d2, 2.0);
      AuxGood(lib, n, s, v.aux);
      if v.weight.Some? {
        var K := GainUsed(n, Gain(n, s.P, pr.H, Sinv.value), protect);
        if !s.aux.tun.waveEnabled {
          EstimateInert(n, s);
          GainUsedVanish(n, s.P, pr.H, Sinv.value, protect);
          PlainPrediction(lib, n, h);
          DirColsVanish(n, h);
        }
        CorrectGood(lib, n, 3, s.(aux := v.aux), K, pr.H, Col(Times(v.weight.value, nu)), Rn);
      }
    }
  }

  lemma EstimateInert(n: nat, s: State)
    requires GoodEstimate(n, s.aux.tun.waveEnabled, s.q, s.waveAcc, s.P) && !s.aux.tun.waveEnabled
    ensures s.waveAcc == ORIGIN && Supported(n, s.P)
  {}

  // ---------- the heading update ----------

  lemma YawColsVanish(n: nat, r2: V3)
    ensures ColsVanish(1, n, YawJacobian(n, r2))
  {}

  lemma YawGainRowsVanish(n: nat, P: Mat, H: Mat, S: real)
    requires Supported(n, P) && S != 0.0
    ensures RowsVanish(n, 1, YawGain(n, P, H, S))
  {
    hide Mul, T;
    SupportedIs(n, P);
    MulRowsVanish(n, n, 1, P, T(1, n, H));
  }

  lemma YawGood(lib: Libm, n: nat, s: State, y: real, R: real)
    requires Good(lib, n, s) && R >= 0.0
    ensures Good(lib, n, EskfUpdateYaw(lib, n, s, y, R).0)
  {
    hide Correct, Covariance, GoodEstimate, GoodAux, RowsVanish, ColsVanish, Libm.Valid, YawGain, YawJacobian,
         YawInnovVar, YawDistance, Isotropic, Weighted, Judge;
    var H := YawJacobian(n, QToR(s.q).r2);
    var S := YawInnovVar(n, s.P, H, R);
    if S >= 0.000000000001 {
      var d2 := YawDistance(y, S);
      JudgeGood(lib, s.aux, MagChannel, s.aux.tun.nisMagAlpha, YAW_CHI2_GATE, d2, 1.0);
      var v := Judge(lib, s.aux, MagChannel, s.aux.tun.nisMagAlpha, YAW_CHI2_GATE, d2, 1.0);
      AuxGood(lib, n, s, v.aux);
      if v.weight.Some? {
        IsotropicCovariance(1, R);
        if !s.aux.tun.waveEnabled {
          EstimateInert(n, s);
          YawGainRowsVanish(n, s.P, H, S);
          YawColsVanish(n, QToR(s.q).r2);
        }
        CorrectGood(lib, n, 1, s.(aux := v.aux), YawGain(n, s.P, H, S), H, Weighted(y, v.weight.value), Isotropic(1, R));
      }
    }
  }

  // ---------- prediction ----------

  lemma PhiSplit(n: nat, w: V3, dt: real, phi: real)
    ensures Split(n, Phi(n, w, dt, phi))
  {}

  lemma WaveNoiseNonneg(lib: Libm, t: Tuning, dt: real)
    requires lib.Valid() && dt > 0.0 && t.waveSig2 >= 0.0 && (t.waveEnabled ==> t.waveTau > 0.0)
    ensures WaveNoise(lib, t, dt) >= 0.0
  {
    if t.waveEnabled {
      var x := -(2.0 * dt / t.waveTau);
      assert 2.0 * dt / t.waveTau >= 0.0;
      var e := 1.0 - lib.exp(x);
      assert e >= 0.0;
      assert t.waveSig2 * e >= 0.0;
      assert -t.waveSig2 * (lib.exp(x) - 1.0) == t.waveSig2 * e;
    }
  }

  lemma PredictCovariance(n: nat, P: Mat, Ph: Mat, Q: int -> real)
    requires Covariance(n, P) && IsMat(Ph, n, n) && forall i :: 0 <= i < n ==> Q(i) >= 0.0
    ensures Covariance(n, PredictCov(n, P, Ph, Q))
    ensures PredictCov(n, P, Ph, Q) == Add(n, n, Congruence(n, n, Ph, P), Diag(n, Q))
  {
    hide Psd, Symmetric, Congruence, Add, Symmetrize, Diag;
    CongruenceCovariance(n, n, Ph, P);
    PsdDiag(n, Q);
    DiagSymmetric(n, Q);
    AddCovariance(n, Congruence(n, n, Ph, P), Diag(n, Q));
    SymmetrizeSymmetric(n, Add(n, n, Congruence(n, n, Ph, P), Diag(n, Q)));
  }

  lemma PredictSupported(n: nat, P: Mat, Ph: Mat, Q: int -> real)
    requires Covariance(n, P) && IsMat(Ph, n, n) && Split(n, Ph) && Supported(n, P)
    requires forall i :: 0 <= i < n ==> Q(i) >= 0.0
    requires forall i :: 6 <= i < n ==> Q(i) == 0.0
    ensures Supported(n, PredictCov(n, P, Ph, Q))
  {
    hide Congruence, PredictCov, Split, Add, Psd, Symmetric;
    PredictCovariance(n, P, Ph, Q);
    SupportedCongruence(n, Ph, P);
    assert Supported(n, Diag(n, Q));
    SupportedAdd(n, Congruence(n, n, Ph, P), Diag(n, Q));
  }

  lemma ProcessNoiseNonneg(lib: Libm, a: Aux, dt: real, i: int)
    requires lib.Valid() && GoodAux(a) && dt > 0.0
    ensures ProcessNoise(a.tun, dt / a.dt, WaveNoise(lib, a.tun, dt), i) >= 0.0
  {
    WaveNoiseNonneg(lib, a.tun, dt);
    assert dt / a.dt > 0.0;
  }

  lemma PredictShape(lib: Libm, n: nat, s: State, gyro: V3, dtS: real)
    requires Runnable(s) && s.aux.initialized
    ensures var t := s.aux.tun;
            var dt := if dtS > 0.0 then dtS else s.aux.dt;
            var w := Minus(gyro, s.bias);
            var s' := Predict(lib, n, s, gyro, dtS);
            && s'.q == QNormalize(lib, QMul(s.q, QFromRotvec(lib, Times(dt, w))))
            && s'.P == PredictCov(n, s.P, Phi(n, w, dt, WavePhi(lib, t, dt)),
                                  NoiseDiagonal(t, dt / s.aux.dt, WaveNoise(lib, t, dt)))
            && (!t.waveEnabled ==> s'.waveAcc == s.waveAcc)
            && s'.aux == s.aux.(converged := s'.aux.converged)
  {
    hide PredictCov, Phi, WavePhi, NoiseDiagonal, WaveNoise, QNormalize, QMul, QFromRotvec, Times, Minus, At;
  }

  lemma PredictGood(lib: Libm, n: nat, s: State, gyro: V3, dtS: real)
    requires Good(lib, n, s)
    ensures Good(lib, n, Predict(lib, n, s, gyro, dtS))
  {
    hide Covariance, Supported, Split, Unit, Libm.Valid, PredictCov, Phi, ProcessNoise, WaveNoise, WavePhi,
         QNormalize, QMul, QFromRotvec, At, GoodAux, Times, Minus, NoiseDiagonal;
    if s.aux.initialized {
      RunnableAux(s);
      PredictShape(lib, n, s, gyro, dtS);
      hide Predict;
      var t := s.aux.tun;
      var dt := if dtS > 0.0 then dtS else s.aux.dt;
      var w := Minus(gyro, s.bias);
      PredictCovGood(lib, n, s, w, dt, WavePhi(lib, t, dt));
      TurnUnit(lib, s.q, Times(dt, w));
      ConvergedGood(s.aux, Predict(lib, n, s, gyro, dtS).aux.converged);
    }
  }

  lemma RunnableAux(s: State)
    requires GoodAux(s.aux)
    ensures Runnable(s)
  {}

  lemma ConvergedGood(a: Aux, c: bool)
    requires GoodAux(a)
    ensures GoodAux(a.(converged := c))
  {}

  lemma PredictCovGood(lib: Libm, n: nat, s: State, w: V3, dt: real, phi: real)
    requires Good(lib, n, s) && dt > 0.0
    ensures var t := s.aux.tun;
            var qw := WaveNoise(lib, t, dt);
            var qs := dt / s.aux.dt;
            var P := PredictCov(n, s.P, Phi(n, w, dt, phi), NoiseDiagonal(t, qs, qw));
            Covariance(n, P) && (!t.waveEnabled ==> Supported(n, P))
  {
    hide Covariance, Supported, Split, Unit, Libm.Valid, PredictCov, Phi, ProcessNoise, WaveNoise;
    var t := s.aux.tun;
    var qw := WaveNoise(lib, t, dt);
    var qs := dt / s.aux.dt;
    var Q := NoiseDiagonal(t, qs, qw);
    forall i | 0 <= i < n ensures Q(i) >= 0.0 {
      ProcessNoiseNonneg(lib, s.aux, dt, i);
    }
    PredictCovariance(n, s.P, Phi(n, w, dt, phi), Q);
    if !t.waveEnabled {
      PhiSplit(n, w, dt, phi);
      WaveOff(n, t, qs, qw);
      PredictSupported(n, s.P, Phi(n, w, dt, phi), Q);
    }
  }

  lemma WaveOff(n: nat, t: Tuning, qs: real, qw: real)
    requires !t.waveEnabled
    ensures forall i :: 6 <= i < n ==> ProcessNoise(t, qs, qw, i) == 0.0
  {}

  // ---------- the remaining calls ----------

  lemma DiagCovariance(n: nat, d: int -> real)
    requires forall i :: 0 <= i < n ==> d(i) >= 0.0
    ensures Covariance(n, Diag(n, d))
  {
    hide Psd, Symmetric, Diag;
    PsdDiag(n, d);
    DiagSymmetric(n, d);
  }

  lemma ResetEstimate(n: nat, s: State)
    requires GoodAux(s.aux)
    ensures var r := ResetState(n, s);
            r.aux == s.aux && GoodEstimate(n, s.aux.tun.waveEnabled, r.q, r.waveAcc, r.P)
  {
    hide Psd, Symmetric;
    DiagCovariance(n, i => InitialVariance(s.aux.tun, i));
  }

  lemma SanitizeGood(lib: Libm, n: nat, s: State)
    requires Good(lib, n, s)
    ensures Good(lib, n, SanitizeReset(n, s))
  {
    hide GoodEstimate, ResetState;
    ResetEstimate(n, s);
  }

  lemma ScaledSquareNonneg(x: real, k: real)
    requires k >= 0.0
    ensures x * x * k >= 0.0
  {
    SquareNonneg(x);
    assert x * x * k == (x * x) * k;
  }

  lemma TuningGood(lib: Libm, a: Aux, c: Config)
    requires GoodAux(a)
    ensures GoodAux(a.(tun := DeriveTuning(lib, a.dt, a.magOdr, c)))
  {
    hide ConvThresh;
    ScaledSquareNonneg(c.gyroNoise, a.dt);
    ScaledSquareNonneg(c.gyroBias, a.dt);
    ScaledSquareNonneg(c.accelNoise / G_MS2, 1.0 / a.dt);
    ScaledSquareNonneg(c.magNoise, a.magOdr);
    SquareNonneg(c.waveAccel / G_MS2);
    SquareNonneg(c.dipSigmaDeg * (PI / 180.0));
  }

  lemma InitGood(lib: Libm, n: nat, c: Config, odr: real, magOdr: real, bias: V3)
    requires lib.Valid() && Dims(n) && odr > 0.0 && magOdr >= 0.0
    ensures Good(lib, n, InitState(lib, n, c, odr, magOdr, bias))
  {
    hide GoodEstimate, ResetState, DeriveTuning, Libm.Valid;
    var s := InitState(lib, n, c, odr, magOdr, bias);
    var dt := 1.0 / odr;
    InitAux(lib, dt, magOdr, c);
    var aux := Aux(dt, magOdr, bias, ORIGIN, false, ORIGIN, 0, false, false, false, 0,
                   DeriveTuning(lib, dt, magOdr, c), 1.0, 0.0, false, 0.0, false, ORIGIN, false, 0,
                   Health(0.0, 0.0, 1.0, 0.0, 0.0, 1.0, 1.0, 1.0));
    ResetEstimate(n, State(Quat(1.0, 0.0, 0.0, 0.0), ORIGIN, ORIGIN, [], aux));
  }

  lemma InitAux(lib: Libm, dt: real, magOdr: real, c: Config)
    requires dt > 0.0 && magOdr >= 0.0
    ensures var t := DeriveTuning(lib, dt, magOdr, c);
            && t.Qg >= 0.0 && t.Qb >= 0.0 && t.Ra >= 0.0 && t.Rm >= 0.0 && t.waveSig2 >= 0.0 && t.dipSig2 >= 0.0
            && (t.waveEnabled ==> t.waveTau > 0.0)
  {
    hide ConvThresh;
    ScaledSquareNonneg(c.gyroNoise, dt);
    ScaledSquareNonneg(c.gyroBias, dt);
    ScaledSquareNonneg(c.accelNoise / G_MS2, 1.0 / dt);
    ScaledSquareNonneg(c.magNoise, magOdr);
    SquareNonneg(c.waveAccel / G_MS2);
    SquareNonneg(c.dipSigmaDeg * (PI / 180.0));
  }

  // ---------- reconfigure ----------

  function SeedDiag(sig2: real): int -> real {
    i => if 6 <= i then sig2 else 0.0
  }

  /** The wave block's own variances are zero. */
  predicate Unseeded(n: nat, P: Mat) {
    forall i :: 6 <= i < n ==> At(P, i, i) == 0.0
  }

  /** Writing over the diagonal, as reconfigure does, is adding to it exactly when what stood there was zero. */
  lemma SeededIsSum(n: nat, P: Mat, sig2: real)
    requires IsMat(P, n, n)
    ensures Seeded(n, P, sig2) == Add(n, n, P, Diag(n, SeedDiag(sig2))) <==> Unseeded(n, P)
  {
    var D := Diag(n, SeedDiag(sig2));
    var S := Add(n, n, P, D);
    if Unseeded(n, P) {
      forall i, j | 0 <= i < n && 0 <= j < n ensures At(Seeded(n, P, sig2), i, j) == At(S, i, j) {}
      MatEq(Seeded(n, P, sig2), S, n, n);
    }
    if Seeded(n, P, sig2) == S {
      forall i | 6 <= i < n ensures At(P, i, i) == 0.0 {
        assert At(Seeded(n, P, sig2), i, i) == At(S, i, i);
      }
    }
  }

  lemma SeededCovariance(n: nat, P: Mat, sig2: real)
    requires Covariance(n, P) && Supported(n, P) && sig2 >= 0.0
    ensures Covariance(n, Seeded(n, P, sig2))
  {
    InertIsUnseeded(n, P);
    hide Covariance, Supported, Seeded, Add, Diag;
    SeededIsSum(n, P, sig2);
    DiagCovariance(n, SeedDiag(sig2));
    AddCovariance(n, P, Diag(n, SeedDiag(sig2)));
  }

  lemma InertIsUnseeded(n: nat, P: Mat)
    requires Covariance(n, P) && Supported(n, P)
    ensures IsMat(P, n, n) && Unseeded(n, P)
  {}

  /** One column of nine, with its entries 0 and 6 given. */
  function Pair06(a: real, b: real): (x: Mat)
    ensures IsMat(x, 9, 1)
  {
    Tab(9, 1, (i, j) => if i == 0 then a else if i == 6 then b else 0.0)
  }

  /** The covariance of two errors that are always equal: ones at (0,0), (0,6), (6,0) and (6,6). */
  function Tied(): (P: Mat)
    ensures IsMat(P, 9, 9)
  {
    Congruence(9, 1, Pair06(1.0, 1.0), Isotropic(1, 1.0))
  }

  function SpoiledDiag(): int -> real {
    i => if i == 6 then -0.75 else if 6 <= i then 0.25 else 0.0
  }

  /** Without an inert block, seeding can spoil a covariance: a quarter written over one of two tied variances. */
  lemma SeedingNeedsInert()
    ensures Covariance(9, Tied()) && !Psd(9, Seeded(9, Tied(), 0.25))
  {
    hide *;
    TiedCovariance();
    SpoiledIsSum();
    QuadAdd(9, Tied(), Diag(9, SpoiledDiag()), Pair06(1.0, -1.0));
    TiedQuad();
    SpoiledQuad();
    NegativeSomewhere(9, Seeded(9, Tied(), 0.25), Pair06(1.0, -1.0));
  }

  lemma TiedCovariance()
    ensures Covariance(9, Tied())
  {
    hide Covariance, Congruence, Isotropic, Pair06;
    IsotropicCovariance(1, 1.0);
    CongruenceCovariance(9, 1, Pair06(1.0, 1.0), Isotropic(1, 1.0));
  }

  lemma SpoiledIsSum()
    ensures Seeded(9, Tied(), 0.25) == Add(9, 9, Tied(), Diag(9, SpoiledDiag()))
  {
    TiedAt();
    hide Tied;
    var P, D := Tied(), Diag(9, SpoiledDiag());
    forall i, j | 0 <= i < 9 && 0 <= j < 9
      ensures At(Seeded(9, P, 0.25), i, j) == At(Add(9, 9, P, D), i, j) {}
    MatEq(Seeded(9, P, 0.25), Add(9, 9, P, D), 9, 9);
  }

  lemma SpoiledQuad()
    ensures Quad(9, Diag(9, SpoiledDiag()), Pair06(1.0, -1.0)) == -0.75
  {
    hide Quad, Diag;
    var d, x := SpoiledDiag(), Pair06(1.0, -1.0);
    QuadDiag(9, d, x);
    SumSingle(9, 6, i => d(i) * (At(x, i, 0) * At(x, i, 0)));
  }

  lemma NegativeSomewhere(n: nat, P: Mat, x: Mat)
    requires IsMat(x, n, 1) && Quad(n, P, x) < 0.0
    ensures !Psd(n, P)
  {}

  /** Entry (i, j) of v r vᵀ. */
  lemma ColumnOuterAt(v: Mat, r: real, i: nat, j: nat)
    requires IsMat(v, 9, 1) && i < 9 && j < 9
    ensures At(Congruence(9, 1, v, Isotropic(1, r)), i, j) == At(v, i, 0) * r * At(v, j, 0)
  {
    hide At;
    var R := Isotropic(1, r);
    MulAt(9, 1, 9, Mul(9, 1, 1, v, R), T(9, 1, v), i, j);
    SumSingle(1, 0, k => At(Mul(9, 1, 1, v, R), i, k) * At(T(9, 1, v), k, j));
    MulAt(9, 1, 1, v, R, i, 0);
    SumSingle(1, 0, k => At(v, i, k) * At(R, k, 0));
  }

  lemma TiedAt()
    ensures forall i :: 6 <= i < 9 ==> At(Tied(), i, i) == if i == 6 then 1.0 else 0.0
  {
    hide Congruence, Isotropic, Pair06, At;
    forall i | 6 <= i < 9 ensures At(Tied(), i, i) == if i == 6 then 1.0 else 0.0 {
      ColumnOuterAt(Pair06(1.0, 1.0), 1.0, i, i);
      PairedAt(i);
    }
  }

  lemma PairedAt(i: nat)
    requires 6 <= i < 9
    ensures At(Pair06(1.0, 1.0), i, 0) == if i == 6 then 1.0 else 0.0
  {}

  /** Tied errors cancel along their difference. */
  lemma TiedQuad()
    ensures Quad(9, Tied(), Pair06(1.0, -1.0)) == 0.0
  {
    var V, x := Pair06(1.0, 1.0), Pair06(1.0, -1.0);
    PairsCancel();
    hide Quad, Congruence, Mul, T, Pair06, Isotropic;
    QuadCongruence(9, 1, V, Isotropic(1, 1.0), x);
    NothingQuad(Isotropic(1, 1.0), Mul(1, 9, 1, T(9, 1, V), x));
  }

  lemma PairsCancel()
    ensures At(Mul(1, 9, 1, T(9, 1, Pair06(1.0, 1.0)), Pair06(1.0, -1.0)), 0, 0) == 0.0
  {
    PairsSum(9);
  }

  lemma PairsSum(n: nat)
    requires n == 9
    ensures At(Mul(1, n, 1, T(n, 1, Pair06(1.0, 1.0)), Pair06(1.0, -1.0)), 0, 0) == 0.0
  {
    forall k: nat | k < n
      ensures At(T(n, 1, Pair06(1.0, 1.0)), 0, k) * At(Pair06(1.0, -1.0), k, 0)
           == (if k == 0 then 1.0 else 0.0) + (if k == 6 then -1.0 else 0.0)
    {
      PairTerm(k);
    }
    hide *;
    PairsMul(n, T(n, 1, Pair06(1.0, 1.0)), Pair06(1.0, -1.0));
  }

  lemma PairsMul(n: nat, v: Mat, x: Mat)
    requires n > 6
    requires forall k: nat :: k < n ==>
      At(v, 0, k) * At(x, k, 0) == (if k == 0 then 1.0 else 0.0) + (if k == 6 then -1.0 else 0.0)
    ensures At(Mul(1, n, 1, v, x), 0, 0) == 0.0
  {
    hide Mul, At;
    MulAt(1, n, 1, v, x, 0, 0);
    SumPair(n, 0, 6, k => At(v, 0, k) * At(x, k, 0));
  }

  lemma PairTerm(k: nat)
    requires k < 9
    ensures At(T(9, 1, Pair06(1.0, 1.0)), 0, k) * At(Pair06(1.0, -1.0), k, 0)
         == (if k == 0 then 1.0 else 0.0) + (if k == 6 then -1.0 else 0.0)
  {
    assert At(T(9, 1, Pair06(1.0, 1.0)), 0, k) == At(Pair06(1.0, 1.0), k, 0);
  }

  lemma NothingQuad(R: Mat, y: Mat)
    requires IsMat(y, 1, 1) && At(y, 0, 0) == 0.0
    ensures Quad(1, R, y) == 0.0
  {
    var z := Mul(1, 1, 1, R, y);
    hide Mul;
    MulAt(1, 1, 1, T(1, 1, y), z, 0, 0);
    assert At(T(1, 1, y), 0, 0) == 0.0;
    SumSingle(1, 0, k => At(T(1, 1, y), 0, k) * At(z, k, 0));
  }

  /** The projection onto the first six coordinates. */
  function Keep6(n: nat): (C: Mat)
    ensures IsMat(C, n, n)
  {
    Diag(n, i => if i < 6 then 1.0 else 0.0)
  }

  lemma Keep6Mul(n: nat, P: Mat, i: nat, j: nat)
    requires i < n && j < n
    ensures At(Mul(n, n, n, Keep6(n), P), i, j) == if i < 6 then At(P, i, j) else 0.0
    ensures At(Mul(n, n, n, P, T(n, n, Keep6(n))), i, j) == if j < 6 then At(P, i, j) else 0.0
  {
    hide At;
    MulAt(n, n, n, Keep6(n), P, i, j);
    MulAt(n, n, n, P, T(n, n, Keep6(n)), i, j);
    forall k | 0 <= k < n && k != i ensures At(Keep6(n), i, k) * At(P, k, j) == 0.0 {
      assert At(Keep6(n), i, k) == 0.0;
    }
    forall k | 0 <= k < n && k != j ensures At(P, i, k) * At(T(n, n, Keep6(n)), k, j) == 0.0 {
      TAt(n, n, Keep6(n), k, j);
      assert At(Keep6(n), j, k) == 0.0;
    }
    SumSingle(n, i, k => At(Keep6(n), i, k) * At(P, k, j));
    SumSingle(n, j, k => At(P, i, k) * At(T(n, n, Keep6(n)), k, j));
    assert At(Keep6(n), i, i) == if i < 6 then 1.0 else 0.0;
    TAt(n, n, Keep6(n), j, j);
    assert At(Keep6(n), j, j) == if j < 6 then 1.0 else 0.0;
  }

  lemma ClearedIsCongruence(n: nat, P: Mat)
    ensures Cleared(n, P) == Congruence(n, n, Keep6(n), P)
  {
    hide Mul, Keep6, T;
    var KP := Mul(n, n, n, Keep6(n), P);
    forall i, j | 0 <= i < n && 0 <= j < n
      ensures At(Cleared(n, P), i, j) == At(Congruence(n, n, Keep6(n), P), i, j)
    {
      Keep6Mul(n, KP, i, j);
      Keep6Mul(n, P, i, j);
    }
    MatEq(Cleared(n, P), Congruence(n, n, Keep6(n), P), n, n);
  }

  lemma ClearedCovariance(n: nat, P: Mat)
    requires Covariance(n, P)
    ensures Covariance(n, Cleared(n, P)) && Supported(n, Cleared(n, P))
  {
    hide Psd, Symmetric, Congruence;
    ClearedIsCongruence(n, P);
    CongruenceCovariance(n, n, Keep6(n), P);
  }

  lemma ReconfigureGood(lib: Libm, n: nat, s: State, c: Config)
    requires Good(lib, n, s)
    ensures Good(lib, n, Reconfigure(lib, n, s, c))
  {
    hide Libm.Valid, DeriveTuning, Covariance, Supported, Unit, At, GoodAux;
    RunnableAux(s);
    var t := DeriveTuning(lib, s.aux.dt, s.aux.magOdr, c);
    TuningGood(lib, s.aux, c);
    if t.waveEnabled && !s.aux.tun.waveEnabled {
      SigmaNonneg(s.aux.(tun := t));
      SeededCovariance(n, s.P, t.waveSig2);
    } else if !t.waveEnabled && s.aux.tun.waveEnabled {
      ClearedCovariance(n, s.P);
    }
  }

  lemma SigmaNonneg(a: Aux)
    requires GoodAux(a)
    ensures a.tun.waveSig2 >= 0.0
  {}

  // ---------- attitude-only calls ----------

  lemma TwoAngles(c: real, s: real, d: real, e: real)
    requires Sq(c) + Sq(s) == 1.0 && Sq(d) + Sq(e) == 1.0
    ensures Sq(c * d) + Sq(c * e) + Sq(s * d) + Sq(s * e) == 1.0
  {
    hide Sq;
    SqProduct(c, d, c * d);
    SqProduct(c, e, c * e);
    SqProduct(s, d, s * d);
    SqProduct(s, e, s * e);
    SumTimesSum(Sq(c), Sq(s), Sq(d), Sq(e));
  }

  lemma SumTimesSum(a: real, b: real, c: real, d: real)
    requires a + b == 1.0 && c + d == 1.0
    ensures a * c + a * d + b * c + b * d == 1.0
  {
    assert a * c + a * d == a * (c + d);
    assert b * c + b * d == b * (c + d);
  }

  lemma TiltUnit(lib: Libm, roll: real, pitch: real)
    requires lib.Valid()
    ensures NormSq(TiltQuat(lib, roll, pitch)) == 1.0
  {
    var cr, sr := lib.cos(roll * 0.5), lib.sin(roll * 0.5);
    var cp, sp := lib.cos(pitch * 0.5), lib.sin(pitch * 0.5);
    assert Sq(cr) + Sq(sr) == 1.0 && Sq(cp) + Sq(sp) == 1.0;
    TwoAngles(cp, sp, cr, sr);
    var q := TiltQuat(lib, roll, pitch);
    assert NormSq(q) == Sq(q.w) + Sq(q.x) + Sq(q.y) + Sq(q.z);
    assert Sq(q.z) == Sq(sp * sr);
  }

  lemma YawTurnUnit(lib: Libm, half: real, q: Quat)
    requires lib.Valid() && Unit(q)
    ensures Unit(YawTurn(lib, half, q))
  {
    hide NormSq, QMul, QNormalize, YawQuat;
    var z := YawQuat(lib, half);
    YawQuatUnit(lib, half);
    QMulNorm(z, q);
    QNormalizeUnit(lib, QMul(z, q));
  }

  lemma YawQuatUnit(lib: Libm, half: real)
    requires lib.Valid()
    ensures NormSq(YawQuat(lib, half)) == 1.0
  {
    assert Sq(lib.sin(half)) + Sq(lib.cos(half)) == 1.0;
    FourSquares(lib.cos(half), 0.0, 0.0, lib.sin(half));
  }

  lemma AlignedUnit(lib: Libm, g: V3, mag: Option<V3>)
    requires lib.Valid()
    ensures Unit(AlignedAttitude(lib, g, mag))
  {
    hide Libm.Valid, QNormalize, TiltQuat, YawTurn, MagYaw, Roll, Pitch;
    TiltUnit(lib, Roll(lib, g), Pitch(lib, g));
    QNormalizeUnit(lib, TiltQuat(lib, Roll(lib, g), Pitch(lib, g)));
    var tilt := GravityTilt(lib, g);
    YawTurnUnit(lib, MagYaw(lib, tilt, mag) * 0.5, tilt);
  }

  lemma AttitudeGood(lib: Libm, n: nat, s: State, q: Quat, a: Aux)
    requires Good(lib, n, s) && Unit(q) && GoodAux(a) && a.tun.waveEnabled == s.aux.tun.waveEnabled
    ensures Good(lib, n, s.(q := q, aux := a))
  {
    hide Unit, Covariance, Supported, GoodAux, Libm.Valid;
  }

  lemma AlignGood(lib: Libm, n: nat, s: State, accel: V3, mag: Option<V3>)
    requires Good(lib, n, s)
    ensures Good(lib, n, Align(lib, s, accel, mag))
  {
    hide GoodEstimate, Unit, Libm.Valid, AlignedAttitude, GravityDirection, QToR, MulV, Times, Norm;
    var an := Norm(lib, accel);
    if an >= 0.5 * G_MS2 {
      var g := GravityDirection(accel, an);
      AlignedUnit(lib, g, mag);
      AttitudeGood(lib, n, s, AlignedAttitude(lib, g, mag), Align(lib, s, accel, mag).aux);
    }
  }

  lemma MrefAcquireGood(lib: Libm, n: nat, s: State, m: MagSample)
    requires Good(lib, n, s)
    ensures Good(lib, n, MrefAcquire(lib, s, m))
  {
    hide GoodEstimate, GoodAux, Unit, Libm.Valid, YawTurn, QToR, MulV, Times, Plus, MeanOf, WindowFull, Horizontal;
    var s' := MrefAcquire(lib, s, m);
    MrefAcquireAux(lib, s, m);
    if s'.q != s.q {
      var mean := MeanOf(Plus(s.aux.mrefSum, Times(0.01, MulV(QToR(s.q), m.field))), s.aux.mrefN + 1);
      EstimateUnit(n, s);
      YawTurnUnit(lib, -0.5 * lib.atan2(mean.y, mean.x), s.q);
      AttitudeGood(lib, n, s, s'.q, s'.aux);
    } else {
      AuxGood(lib, n, s, s'.aux);
    }
  }

  lemma MrefAcquireAux(lib: Libm, s: State, m: MagSample)
    requires GoodAux(s.aux)
    ensures var s' := MrefAcquire(lib, s, m);
            GoodAux(s'.aux) && s'.aux.tun == s.aux.tun && s' == s.(q := s'.q, aux := s'.aux)
  {
    hide NorthTurn, QToR, MulV, Times, Plus, MeanOf, WindowFull, Horizontal;
  }

  lemma EstimateUnit(n: nat, s: State)
    requires GoodEstimate(n, s.aux.tun.waveEnabled, s.q, s.waveAcc, s.P)
    ensures Unit(s.q)
  {}

  // ---------- accelerometer and magnetometer calls ----------

  lemma AccelGood(lib: Libm, n: nat, s: State, m: ImuSample)
    requires Good(lib, n, s)
    ensures Good(lib, n, UpdateAccel(lib, n, s, m))
  {
    hide GoodEstimate, GoodAux, Libm.Valid, Covariance, EskfUpdate, Isotropic, AccelVariance, AccelBookkeeping, GravityDirection, EmaAlpha, QToR, Norm, SpecificForce, AccelUsable;
    if s.aux.initialized {
      var acc := SpecificForce(s, m);
      var an := Norm(lib, acc);
      var a1 := AccelBookkeeping(lib, s.aux, an / G_MS2);
      BookkeepingGood(lib, s.aux, an / G_MS2);
      AuxGood(lib, n, s, a1);
      if AccelUsable(lib, s, m) {
        AccelNonzero(lib, s, m);
        var h := QToR(s.q).r2;
        var z := GravityDirection(acc, an);
        var alpha := EmaAlpha(lib, a1.health.dtAccum, GATE_TAU_S);
        var a2 := a1.(health := a1.health.(dtAccum := 0.0), gBody := z, gBodyValid := true);
        StashGood(a1, z);
        AuxGood(lib, n, s, a2);
        AccelVarianceNonneg(a2);
        IsotropicCovariance(3, AccelVariance(a2));
        EskfGood(lib, n, s.(aux := a2), h, z, Isotropic(3, AccelVariance(a2)), AccelChannel, alpha,
                 if a2.tun.waveEnabled then Some(s.waveAcc) else None, Some(h));
      }
    }
  }

  lemma BookkeepingGood(lib: Libm, a: Aux, ag: real)
    requires GoodAux(a)
    ensures GoodAux(AccelBookkeeping(lib, a, ag)) && AccelBookkeeping(lib, a, ag).tun == a.tun
  {}

  lemma StashGood(a: Aux, z: V3)
    requires GoodAux(a)
    ensures GoodAux(a.(health := a.health.(dtAccum := 0.0), gBody := z, gBodyValid := true))
  {}

  lemma AccelVarianceNonneg(a: Aux)
    requires GoodAux(a)
    ensures AccelVariance(a) >= 0.0
  {}

  lemma AccelNonzero(lib: Libm, s: State, m: ImuSample)
    requires AccelUsable(lib, s, m)
    ensures Norm(lib, SpecificForce(s, m)) >= 0.000001
  {}

  /** The rank-one form is a covariance: an isotropic part and a square. */
  lemma RankOneCovariance(R: real, sig2: real, u: V3)
    requires R >= 0.0 && sig2 >= 0.0
    ensures Covariance(3, RankOneNoise(R, sig2, u))
  {
    hide Covariance, RankOneNoise, Isotropic, Congruence;
    IsotropicCovariance(3, R);
    IsotropicCovariance(1, sig2);
    assert IsMat(Col(u), 3, 1);
    CongruenceCovariance(3, 1, Col(u), Isotropic(1, sig2));
    AddCovariance(3, Isotropic(3, R), Congruence(3, 1, Col(u), Isotropic(1, sig2)));
    RankOneIsSum(R, sig2, u);
  }

  lemma OuterAt(sig2: real, u: V3, i: nat, j: nat)
    requires i < 3 && j < 3
    ensures At(Congruence(3, 1, Col(u), Isotropic(1, sig2)), i, j) == sig2 * Entry(u, i) * Entry(u, j)
  {
    hide At, Entry;
    var N := Isotropic(1, sig2);
    var M := Mul(3, 1, 1, Col(u), N);
    MulAt(3, 1, 1, Col(u), N, i, 0);
    MulAt(3, 1, 3, M, T(3, 1, Col(u)), i, j);
    SumSingle(1, 0, k => At(Col(u), i, k) * At(N, k, 0));
    SumSingle(1, 0, k => At(M, i, k) * At(T(3, 1, Col(u)), k, j));
    TAt(3, 1, Col(u), 0, j);
    assert At(N, 0, 0) == sig2;
    assert At(M, i, 0) == Entry(u, i) * sig2;
  }

  lemma RankOneIsSum(R: real, sig2: real, u: V3)
    ensures RankOneNoise(R, sig2, u) == Add(3, 3, Isotropic(3, R), Congruence(3, 1, Col(u), Isotropic(1, sig2)))
  {
    hide Congruence, Entry, At;
    var S := Add(3, 3, Isotropic(3, R), Congruence(3, 1, Col(u), Isotropic(1, sig2)));
    forall i, j | 0 <= i < 3 && 0 <= j < 3 ensures At(RankOneNoise(R, sig2, u), i, j) == At(S, i, j) {
      OuterAt(sig2, u, i, j);
    }
    MatEq(RankOneNoise(R, sig2, u), S, 3, 3);
  }

  lemma DipNoiseCovariance(lib: Libm, a: Aux, R: M33, h: V3, hMag: real, mh: real, Rm: real)
    requires hMag > 0.0 && Rm >= 0.0
    ensures Covariance(3, DipNoise(lib, a, R, h, hMag, mh, Rm))
  {
    hide Covariance, RankOneNoise, Isotropic, Cross, TMulV, Norm, Unitized;
    IsotropicCovariance(3, Rm);
    if a.tun.dipSig2 > 0.0 && mh > 0.2 * hMag {
      var u := Cross(TMulV(R, V3(a.mRef.y / mh, -a.mRef.x / mh, 0.0)), h);
      var un := Norm(lib, u);
      if un > 0.000001 { RankOneCovariance(Rm, a.tun.dipSig2, Unitized(u, un)); }
    }
  }

  lemma AcceptGood(lib: Libm, n: nat, r: (State, Outcome))
    requires Good(lib, n, r.0)
    ensures Good(lib, n, Accept(r))
  {
    hide GoodEstimate;
  }

  lemma RateNonneg(a: Aux, m: real)
    requires GoodAux(a) && m > 0.0
    ensures DirectionVariance(a.tun.Rm, m) >= 0.0
  {
    hide PositiveProduct;
  }

  lemma MagFuseGood(lib: Libm, n: nat, s: State, uncal: bool, R: M33, mNed: V3, h: V3, z: V3, hMag: real, resSq: real)
    requires Good(lib, n, s) && hMag > 0.0
    ensures Good(lib, n, MagFuse(lib, n, s, uncal, R, mNed, h, z, hMag, resSq))
  {
    hide GoodEstimate, GoodAux, DirectionVariance, Withdrawal, Libm.Valid, Covariance, EskfUpdate, EskfUpdateYaw, DipNoise, HeadingInnov, Horizontal, Accept;
    var a := s.aux;
    var mh := Horizontal(lib, a.mRef);
    var hdgOk := mh >= 0.2 * hMag && Horizontal(lib, mNed) >= 0.2 * hMag;
    var y := if hdgOk then HeadingInnov(lib, mNed, a.mRef) else 0.0;
    if hdgOk {
      RateNonneg(a, mh);
      var a2 := if uncal && a.tun.uncalReject > 0.0 then Withdrawal(a, mh / hMag) else a;
      WithdrawalGood(a, mh / hMag);
      AuxGood(lib, n, s, a2);
      YawGood(lib, n, s.(aux := a2), y, DirectionVariance(a.tun.Rm, mh));
      AcceptGood(lib, n, EskfUpdateYaw(lib, n, s.(aux := a2), y, DirectionVariance(a.tun.Rm, mh)));
    }
    RateNonneg(a, hMag);
    var Rm := DirectionVariance(a.tun.Rm, hMag);
    DipNoiseCovariance(lib, a, R, h, hMag, mh, Rm);
    EskfGood(lib, n, s, h, z, DipNoise(lib, a, R, h, hMag, mh, Rm), MagChannel, a.tun.nisMagAlpha, None, None);
    AcceptGood(lib, n, EskfUpdate(lib, n, s, h, z, DipNoise(lib, a, R, h, hMag, mh, Rm), MagChannel, a.tun.nisMagAlpha, None, None));
  }

  lemma WithdrawalGood(a: Aux, ratio: real)
    requires GoodAux(a)
    ensures GoodAux(Withdrawal(a, ratio)) && Withdrawal(a, ratio).tun == a.tun
  {}

  lemma MagHealthKeeps(lib: Libm, a: Aux, mNed: V3, zMag: real, hMag: real)
    requires hMag != 0.0 && GoodAux(a)
    ensures GoodAux(MagHealth(lib, a, mNed, zMag, hMag)) && MagHealth(lib, a, mNed, zMag, hMag).tun == a.tun
  {
    hide Ema, HeadingInnov, Horizontal, Abs;
  }

  lemma LearnKeeps(lib: Libm, a: Aux, mb: V3, zMag: real, resSq: real, uncal: bool)
    requires zMag != 0.0 && GoodAux(a)
    ensures var b := LearnReference(lib, a, mb, zMag, resSq, uncal); GoodAux(b) && b.tun == a.tun
  {
    hide Learned;
    if Learns(a, resSq, uncal) { MrefFree(a, Learned(lib, a, mb, zMag)); }
  }

  lemma MrefFree(a: Aux, m: V3)
    requires GoodAux(a)
    ensures GoodAux(a.(mRef := m))
  {}

  lemma MagGood(lib: Libm, n: nat, s: State, m: MagSample)
    requires Good(lib, n, s)
    ensures Good(lib, n, UpdateMag(lib, n, s, m))
  {
    hide GoodEstimate, GoodAux, Libm.Valid, Unitized, MagFuse, MagHealth, LearnReference, MrefAcquire, Norm, Dot, Times, QToR, MulV, TMulV, Minus;
    MrefAcquireGood(lib, n, s, m);
    if s.aux.initialized && m.valid && s.aux.mRefValid && (m.calibrated || s.aux.tun.fuseUncal) {
      var uncal := !m.calibrated;
      var s1 := if uncal then s.(aux := s.aux.(uncalSeen := true)) else s;
      SeenGood(s.aux);
      AuxGood(lib, n, s, s1.aux);
      var mb := Times(0.01, m.field);
      var R := QToR(s.q);
      var hRaw := TMulV(R, s.aux.mRef);
      var hMag := Norm(lib, hRaw);
      var zMag := Norm(lib, mb);
      if hMag >= 0.000001 && zMag >= 0.000001 {
        var h := Unitized(hRaw, hMag);
        var z := Unitized(mb, zMag);
        var d := Minus(z, h);
        var resSq := Dot(d, d);
        var mNed := MulV(R, mb);
        MagHealthKeeps(lib, s1.aux, mNed, zMag, hMag);
        var a2 := MagHealth(lib, s1.aux, mNed, zMag, hMag);
        AuxGood(lib, n, s1, a2);
        LearnKeeps(lib, a2, mb, zMag, resSq, uncal);
        var a3 := LearnReference(lib, a2, mb, zMag, resSq, uncal);
        AuxGood(lib, n, s1, a3);
        MagFuseGood(lib, n, s1.(aux := a3), uncal, R, mNed, h, z, hMag, resSq);
      }
    }
  }

  lemma SeenGood(a: Aux)
    requires GoodAux(a)
    ensures GoodAux(a.(uncalSeen := true))
  {}

  // ---------- every step, every run ----------

  lemma StepGood(lib: Libm, n: nat, s: State, op: Op)
    requires Good(lib, n, s) && ValidOp(op)
    ensures Good(lib, n, Step(lib, n, s, op))
  {
    hide GoodEstimate, Libm.Valid, Align, Predict, UpdateAccel, UpdateMag, Reconfigure, SanitizeReset;
    match op
    case AlignOp(a, m) => AlignGood(lib, n, s, a, m);
    case PredictOp(g, dt) => PredictGood(lib, n, s, g, dt);
    case AccelOp(m) => AccelGood(lib, n, s, m);
    case MagOp(m) => MagGood(lib, n, s, m);
    case ReconfigureOp(c) => ReconfigureGood(lib, n, s, c);
    case SanitizeOp => SanitizeGood(lib, n, s);
    case InvariantsOp(h, z) => AuxGood(lib, n, s, SetMrefInvariants(lib, s, h, z).aux);
    case SpeedOp(v) => AuxGood(lib, n, s, s.aux.(speed := v));
    case VibrationOp(lo, hi, k) =>
      AuxGood(lib, n, s, s.aux.(tun := s.aux.tun.(skipLo := lo, skipHi := hi), raScale := k));
  }

  /** The state after a whole sequence of calls. */
  ghost function Run(lib: Libm, n: nat, s: State, ops: seq<Op>): (r: State)
    requires Good(lib, n, s)
    requires forall k :: 0 <= k < |ops| ==> ValidOp(ops[k])
    ensures Good(lib, n, r)
    decreases |ops|
  {
    if ops == [] then s
    else
      StepGood(lib, n, s, ops[0]);
      Run(lib, n, Step(lib, n, s, ops[0]), ops[1..])
  }

  /** From mekf_init on, any interleaving of calls leaves a unit attitude, a symmetric positive
      semidefinite covariance, and, while the wave state is off, a wave block of exact zeros. */
  lemma EveryRunKeepsCovariance(lib: Libm, n: nat, c: Config, odr: real, magOdr: real, bias: V3, ops: seq<Op>)
    requires lib.Valid() && Dims(n) && odr > 0.0 && magOdr >= 0.0
    requires forall k :: 0 <= k < |ops| ==> ValidOp(ops[k])
    ensures Good(lib, n, InitState(lib, n, c, odr, magOdr, bias))
    ensures var s := Run(lib, n, InitState(lib, n, c, odr, magOdr, bias), ops);
            && Unit(s.q)
            && Symmetric(n, s.P)
            && Psd(n, s.P)
            && (!s.aux.tun.waveEnabled ==> s.waveAcc == ORIGIN && Supported(n, s.P))
  {
    hide InitState, Unit, Symmetric, Psd, Supported;
    InitGood(lib, n, c, odr, magOdr, bias);
  }

  // ---------- mekf_set_mref_invariants ----------

  /** The reference field takes the given strength and dip and keeps its horizontal direction, which is what heading
      hangs on; without a reference, a strength or a horizontal part to scale nothing happens. */
  lemma MrefKeepsDirection(lib: Libm, s: State, hGauss: real, zGauss: real)
    requires lib.Valid()
    ensures var m, t := s.aux.mRef, SetMrefInvariants(lib, s, hGauss, zGauss);
            if s.aux.mRefValid && hGauss > 0.0 && Horizontal(lib, m) >= 0.000001 then
              var n := t.aux.mRef;
              && t == s.(aux := s.aux.(mRef := n)) && n.z == zGauss && Horizontal(lib, n) == hGauss
              && n.x * m.y == n.y * m.x && n.x * m.x + n.y * m.y > 0.0
            else t == s
  {
    if s.aux.mRefValid && hGauss > 0.0 && Horizontal(lib, s.aux.mRef) >= 0.000001 {
      ReshapedKeeps(lib, s.aux.mRef, hGauss, zGauss);
    }
    hide Horizontal, Reshaped;
  }

  lemma ReshapedKeeps(lib: Libm, m: V3, h: real, z: real)
    requires lib.Valid() && h > 0.0 && Horizontal(lib, m) > 0.0
    ensures var n := Reshaped(m, h / Horizontal(lib, m), z);
            n.z == z && Horizontal(lib, n) == h && n.x * m.y == n.y * m.x && n.x * m.x + n.y * m.y > 0.0
  {
    var mh := Horizontal(lib, m);
    var n := Reshaped(m, h / mh, z);
    SumOfSquares(m.x, m.y);
    Rescaled(m.x, m.y, mh, h / mh, h);
    SumOfSquares(n.x, n.y);
    SameRoot(Horizontal(lib, n), h);
  }

  lemma SumOfSquares(x: real, y: real)
    ensures x * x + y * y >= 0.0
  {
    SquareNonneg(x);
    SquareNonneg(y);
  }

  lemma Rescaled(x: real, y: real, mh: real, k: real, h: real)
    requires mh > 0.0 && h > 0.0 && k == h / mh && mh * mh == x * x + y * y
    ensures (x * k) * (x * k) + (y * k) * (y * k) == h * h
    ensures (x * k) * y == (y * k) * x && (x * k) * x + (y * k) * y > 0.0
  {
    assert k * mh == h;
    assert (x * k) * (x * k) + (y * k) * (y * k) == (k * k) * (x * x + y * y);
    assert (k * k) * (mh * mh) == (k * mh) * (k * mh);
    assert (x * k) * x + (y * k) * y == k * (x * x + y * y);
    assert k * (mh * mh) == h * mh;
    assert h * mh == PositiveProduct(h, mh);
  }

  lemma SameRoot(a: real, b: real)
    requires a >= 0.0 && b > 0.0 && a * a == b * b
    ensures a == b
  {
    assert (a - b) * (a + b) == 0.0;
    if a != b { NonzeroProduct(a - b, a + b); }
  }

  lemma NonzeroProduct(x: real, y: real)
    requires x != 0.0 && y != 0.0
    ensures x * y != 0.0
  {}
}
