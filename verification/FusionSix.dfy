/**
 With the wave state off, the nine-state filter is the six-state filter: run on the same
 inputs, the two agree on every scalar and on the whole 6×6 covariance, and the rest of
 the nine-state covariance is zero.
 */
module FusionSix {
  import opened FusionMath
  import opened Sums
  import opened Matrix
  import opened Fusion
  import opened FusionRuns

  // ---------- blocks ----------

  /** A and B agree on the leading r-by-c block. */
  predicate Lead(r: nat, c: nat, A: Mat, B: Mat) {
    forall i, j :: 0 <= i < r && 0 <= j < c ==> At(A, i, j) == At(B, i, j)
  }

  /** A product's leading block, when what the larger inner index adds is zero. */
  lemma LeadMul(r: nat, c: nat, rA: nat, cA: nat, rB: nat, cB: nat, n9: nat, n6: nat, A: Mat, B: Mat, A6: Mat, B6: Mat)
    requires r <= rA && c <= cA && r <= rB && c <= cB && n6 <= n9
    requires Lead(r, n6, A, A6) && Lead(n6, c, B, B6)
    requires forall i, k :: 0 <= i < r && n6 <= k < n9 ==> At(A, i, k) == 0.0
    ensures Lead(r, c, Mul(rA, n9, cA, A, B), Mul(rB, n6, cB, A6, B6))
  {
    hide At, Mul;
    forall i, j | 0 <= i < r && 0 <= j < c
      ensures At(Mul(rA, n9, cA, A, B), i, j) == At(Mul(rB, n6, cB, A6, B6), i, j)
    {
      MulAt(rA, n9, cA, A, B, i, j);
      MulAt(rB, n6, cB, A6, B6, i, j);
      var f := k => At(A, i, k) * At(B, k, j);
      var g := k => At(A6, i, k) * At(B6, k, j);
      forall k | n6 <= k < n9 ensures f(k) == 0.0 {
        assert At(A, i, k) == 0.0;
      }
      SumTruncate(n9, n6, f);
      forall k | 0 <= k < n6 ensures f(k) == g(k) {
        assert At(A, i, k) == At(A6, i, k) && At(B, k, j) == At(B6, k, j);
      }
      SumExt(n6, f, g);
    }
  }

  lemma LeadT(r: nat, c: nat, rA: nat, cA: nat, rB: nat, cB: nat, A: Mat, B: Mat)
    requires r <= rA && c <= cA && r <= rB && c <= cB && Lead(r, c, A, B)
    ensures Lead(c, r, T(rA, cA, A), T(rB, cB, B))
  {
    hide At, T;
    forall i, j | 0 <= i < c && 0 <= j < r ensures At(T(rA, cA, A), i, j) == At(T(rB, cB, B), i, j) {
      TAt(rA, cA, A, i, j);
      TAt(rB, cB, B, i, j);
      assert At(A, j, i) == At(B, j, i);
    }
  }

  lemma LeadAdd(A: Mat, B: Mat, C: Mat, D: Mat)
    requires Lead(6, 6, A, C) && Lead(6, 6, B, D)
    ensures Lead(6, 6, Add(9, 9, A, B), Add(6, 6, C, D))
  {
    hide At;
    forall i, j | 0 <= i < 6 && 0 <= j < 6 ensures At(Add(9, 9, A, B), i, j) == At(Add(6, 6, C, D), i, j) {
      assert At(A, i, j) == At(C, i, j) && At(B, i, j) == At(D, i, j);
    }
  }

  lemma LeadExact(r: nat, c: nat, A: Mat, B: Mat)
    requires IsMat(A, r, c) && IsMat(B, r, c) && Lead(r, c, A, B)
    ensures A == B
  {
    MatEq(A, B, r, c);
  }

  lemma LeadCongruence(A: Mat, P: Mat, A6: Mat, P6: Mat)
    requires Split(9, A) && Supported(9, P) && Lead(6, 6, A, A6) && Lead(6, 6, P, P6)
    ensures Lead(6, 6, Congruence(9, 9, A, P), Congruence(6, 6, A6, P6))
  {
    hide At, Mul, T;
    LeadMul(6, 6, 9, 9, 6, 6, 9, 6, A, P, A6, P6);
    LeadT(6, 6, 9, 9, 6, 6, A, A6);
    MulColsVanish9(A, P);
    LeadMul(6, 6, 9, 9, 6, 6, 9, 6, Mul(9, 9, 9, A, P), T(9, 9, A), Mul(6, 6, 6, A6, P6), T(6, 6, A6));
  }

  lemma MulColsVanish9(A: Mat, P: Mat)
    requires Supported(9, P)
    ensures forall i, k :: 0 <= i < 6 && 6 <= k < 9 ==> At(Mul(9, 9, 9, A, P), i, k) == 0.0
  {
    SupportedIs(9, P);
    MulColsVanish(9, 9, 9, A, P);
  }

  lemma LeadGainTerm(m: nat, K: Mat, K6: Mat, Rn: Mat)
    requires Lead(6, m, K, K6)
    ensures Lead(6, 6, Congruence(9, m, K, Rn), Congruence(6, m, K6, Rn))
  {
    hide At, Mul, T;
    assert Lead(m, m, Rn, Rn);
    LeadMul(6, m, 9, m, 6, m, m, m, K, Rn, K6, Rn);
    LeadT(6, m, 9, m, 6, m, K, K6);
    LeadMul(6, 6, 9, 9, 6, 6, m, m, Mul(9, m, m, K, Rn), T(9, m, K), Mul(6, m, m, K6, Rn), T(6, m, K6));
  }

  // ---------- the relation ----------

  /** The nine-state filter with its wave block off, beside the six-state one. */
  ghost predicate Twin(s9: State, s6: State) {
    && s9.q == s6.q && s9.bias == s6.bias && s9.aux == s6.aux
    && s9.waveAcc == ORIGIN && s6.waveAcc == ORIGIN
    && !s9.aux.tun.waveEnabled
    && IsMat(s9.P, 9, 9) && IsMat(s6.P, 6, 6)
    && Supported(9, s9.P) && Lead(6, 6, s9.P, s6.P)
  }

  // ---------- the correction ----------

  lemma LeadResidual(m: nat, K: Mat, H: Mat, K6: Mat, H6: Mat)
    requires Lead(6, m, K, K6) && Lead(m, 6, H, H6)
    ensures Lead(6, 6, Residual(9, m, K, H), Residual(6, m, K6, H6))
  {
    hide At, Mul;
    LeadMul(6, 6, 9, 9, 6, 6, m, m, K, H, K6, H6);
    forall i, j | 0 <= i < 6 && 0 <= j < 6
      ensures At(Residual(9, m, K, H), i, j) == At(Residual(6, m, K6, H6), i, j)
    {
      assert At(Mul(9, m, 9, K, H), i, j) == At(Mul(6, m, 6, K6, H6), i, j);
    }
  }

  lemma LeadReset(d: V3)
    ensures Lead(6, 6, ResetJac(9, d), ResetJac(6, d))
  {}

  lemma SplitLeadZero(A: Mat)
    requires Split(9, A)
    ensures forall i, k :: 0 <= i < 6 && 6 <= k < 9 ==> At(A, i, k) == 0.0
  {}

  lemma LeadJoseph(m: nat, d: V3, P: Mat, K: Mat, H: Mat, P6: Mat, K6: Mat, H6: Mat, Rn: Mat)
    requires Supported(9, P) && Lead(6, 6, P, P6)
    requires Lead(6, m, K, K6) && Lead(m, 6, H, H6) && RowsVanish(9, m, K) && ColsVanish(m, 9, H)
    ensures Lead(6, 6,
              Joseph(9, m, Mul(9, 9, 9, ResetJac(9, d), Residual(9, m, K, H)), P, Mul(9, 9, m, ResetJac(9, d), K), Rn),
              Joseph(6, m, Mul(6, 6, 6, ResetJac(6, d), Residual(6, m, K6, H6)), P6, Mul(6, 6, m, ResetJac(6, d), K6), Rn))
  {
    hide At, Mul, ResetJac, Residual, Congruence, Add, Split, Supported, Lead, RowsVanish, ColsVanish;
    var G, G6 := ResetJac(9, d), ResetJac(6, d);
    var A, A6 := Residual(9, m, K, H), Residual(6, m, K6, H6);
    LeadReset(d);
    ResetSplit(9, d);
    SplitLeadZero(G);
    ResidualSplit(9, m, K, H);
    LeadResidual(m, K, H, K6, H6);
    LeadMul(6, 6, 9, 9, 6, 6, 9, 6, G, A, G6, A6);
    SplitMul(9, G, A);
    LeadCongruence(Mul(9, 9, 9, G, A), P, Mul(6, 6, 6, G6, A6), P6);
    LeadMul(6, m, 9, m, 6, m, 9, 6, G, K, G6, K6);
    LeadGainTerm(m, Mul(9, 9, m, G, K), Mul(6, 6, m, G6, K6), Rn);
    LeadAdd(Congruence(9, 9, Mul(9, 9, 9, G, A), P), Congruence(9, m, Mul(9, 9, m, G, K), Rn),
            Congruence(6, 6, Mul(6, 6, 6, G6, A6), P6), Congruence(6, m, Mul(6, 6, m, G6, K6), Rn));
  }

  lemma LeadSymmetrize(P: Mat, P6: Mat)
    requires Lead(6, 6, P, P6)
    ensures Lead(6, 6, Symmetrize(9, P), Symmetrize(6, P6))
  {
    hide At;
    forall i, j | 0 <= i < 6 && 0 <= j < 6 ensures At(Symmetrize(9, P), i, j) == At(Symmetrize(6, P6), i, j) {
      assert At(P, i, j) == At(P6, i, j) && At(P, j, i) == At(P6, j, i);
    }
  }

  lemma SupportedSymmetrize(n: nat, P: Mat)
    requires Supported(n, P)
    ensures Supported(n, Symmetrize(n, P))
  {
    hide At;
    forall i, j | 0 <= i < n && 0 <= j < n && (6 <= i || 6 <= j) ensures At(Symmetrize(n, P), i, j) == 0.0 {
      assert At(P, i, j) == 0.0 && At(P, j, i) == 0.0;
    }
  }

  lemma LeadStep(m: nat, K: Mat, K6: Mat, nu: Mat)
    requires Lead(6, m, K, K6) && RowsVanish(9, m, K)
    ensures Sub3(Mul(9, m, 1, K, nu), 0) == Sub3(Mul(6, m, 1, K6, nu), 0)
    ensures Sub3(Mul(9, m, 1, K, nu), 3) == Sub3(Mul(6, m, 1, K6, nu), 3)
    ensures Sub3(Mul(9, m, 1, K, nu), 6) == ORIGIN == Sub3(Mul(6, m, 1, K6, nu), 6)
  {
    hide Mul, At;
    assert Lead(m, 1, nu, nu);
    LeadMul(6, 1, 9, 1, 6, 1, m, m, K, nu, K6, nu);
    WaveStepZero(9, m, K, nu);
    PastEnd(Mul(6, m, 1, K6, nu));
  }

  lemma PastEnd(x: Mat)
    requires IsMat(x, 6, 1)
    ensures Sub3(x, 6) == ORIGIN
  {}

  lemma TwinCorrect(lib: Libm, m: nat, s9: State, s6: State, K: Mat, H: Mat, K6: Mat, H6: Mat, nu: Mat, Rn: Mat)
    requires Twin(s9, s6)
    requires Lead(6, m, K, K6) && Lead(m, 6, H, H6) && RowsVanish(9, m, K) && ColsVanish(m, 9, H)
    ensures Twin(Correct(lib, 9, m, s9, K, H, nu, Rn), Correct(lib, 6, m, s6, K6, H6, nu, Rn))
  {
    hide Mul, At, Joseph, Symmetrize, Residual, ResetJac, QNormalize, QMul, QFromRotvec, Sub3, Supported, Lead,
         RowsVanish, ColsVanish, Split, Plus;
    var d := Sub3(Mul(9, m, 1, K, nu), 0);
    LeadStep(m, K, K6, nu);
    LeadJoseph(m, d, s9.P, K, H, s6.P, K6, H6, Rn);
    ResetSplit(9, d);
    JosephSupported(9, m, ResetJac(9, d), s9.P, K, H, Rn);
    var J := Joseph(9, m, Mul(9, 9, 9, ResetJac(9, d), Residual(9, m, K, H)), s9.P, Mul(9, 9, m, ResetJac(9, d), K), Rn);
    var J6 := Joseph(6, m, Mul(6, 6, 6, ResetJac(6, d), Residual(6, m, K6, H6)), s6.P, Mul(6, 6, m, ResetJac(6, d), K6), Rn);
    LeadSymmetrize(J, J6);
    SupportedSymmetrize(9, J);
    SymmetrizeMat(9, J);
    SymmetrizeMat(6, J6);
    OriginPlus();
  }

  lemma SymmetrizeMat(n: nat, P: Mat)
    ensures IsMat(Symmetrize(n, P), n, n)
  {}

  lemma OriginPlus()
    ensures Plus(ORIGIN, ORIGIN) == ORIGIN
  {}

  // ---------- the updates ----------

  lemma TwinInnovCov(m: nat, P: Mat, P6: Mat, H: Mat, H6: Mat, Rn: Mat)
    requires Supported(9, P) && Lead(6, 6, P, P6) && Lead(m, 6, H, H6) && ColsVanish(m, 9, H)
    ensures InnovCov(9, m, P, H, Rn) == InnovCov(6, m, P6, H6, Rn)
    ensures Lead(6, m, PHt(9, m, P, H), PHt(6, m, P6, H6))
    ensures RowsVanish(9, m, PHt(9, m, P, H))
  {
    hide At, Mul, T;
    LeadT(m, 6, m, 9, m, 6, H, H6);
    SupportedIs(9, P);
    LeadMul(6, m, 9, m, 6, m, 9, 6, P, T(m, 9, H), P6, T(m, 6, H6));
    MulRowsVanish(9, 9, m, P, T(m, 9, H));
    LeadMul(m, m, m, m, m, m, 9, 6, H, PHt(9, m, P, H), H6, PHt(6, m, P6, H6));
    LeadExact(m, m, Mul(m, 9, m, H, PHt(9, m, P, H)), Mul(m, 6, m, H6, PHt(6, m, P6, H6)));
  }

  lemma TwinDir(h: V3)
    ensures Lead(3, 6, DirJacobian(9, h), DirJacobian(6, h))
    ensures ColsVanish(3, 9, DirJacobian(9, h))
  {}

  lemma TwinGain(P: Mat, P6: Mat, H: Mat, H6: Mat, B: M33, p: Option<V3>)
    requires Supported(9, P) && Lead(6, 6, P, P6) && Lead(3, 6, H, H6) && ColsVanish(3, 9, H)
    ensures Lead(6, 3, GainUsed(9, Gain(9, P, H, B), p), GainUsed(6, Gain(6, P6, H6, B), p))
    ensures RowsVanish(9, 3, GainUsed(9, Gain(9, P, H, B), p))
  {
    hide At, Mul, PHt, Protect, InnovCov;
    TwinInnovCov(3, P, P6, H, H6, FromM33(B));
    var F := FromM33(B);
    assert Lead(3, 3, F, F);
    LeadMul(6, 3, 9, 3, 6, 3, 3, 3, PHt(9, 3, P, H), F, PHt(6, 3, P6, H6), F);
    GainUsedVanish(9, P, H, B, p);
    if p.Some? { TwinProtect(Gain(9, P, H, B), Gain(6, P6, H6, B), p.value); }
  }

  lemma TwinProtect(K: Mat, K6: Mat, p: V3)
    requires Lead(6, 3, K, K6)
    ensures Lead(6, 3, Protect(9, K, p), Protect(6, K6, p))
  {
    hide At, Entry;
    forall i, j | 0 <= i < 6 && 0 <= j < 3 ensures At(Protect(9, K, p), i, j) == At(Protect(6, K6, p), i, j) {
      assert At(K, i, j) == At(K6, i, j);
      assert At(K, 0, j) == At(K6, 0, j) && At(K, 1, j) == At(K6, 1, j) && At(K, 2, j) == At(K6, 2, j);
    }
  }

  lemma TwinEskf(lib: Libm, s9: State, s6: State, h: V3, z: V3, Rn: Mat, ch: Channel, alpha: real, p: Option<V3>)
    requires Twin(s9, s6)
    ensures var r9 := EskfUpdate(lib, 9, s9, h, z, Rn, ch, alpha, None, p);
            var r6 := EskfUpdate(lib, 6, s6, h, z, Rn, ch, alpha, None, p);
            Twin(r9.0, r6.0) && r9.1 == r6.1
  {
    hide Correct, Gain, GainUsed, Judge, InnovCov, Inv, DirJacobian, Distance, Col, Times, Supported, Lead,
         RowsVanish, ColsVanish, At, Predicted, ToM33;
    PlainPrediction(lib, 9, h);
    PlainPrediction(lib, 6, h);
    var H, H6 := DirJacobian(9, h), DirJacobian(6, h);
    TwinDir(h);
    TwinInnovCov(3, s9.P, s6.P, H, H6, Rn);
    var Sinv := InnovInverse(9, s9.P, H, Rn);
    assert Sinv == InnovInverse(6, s6.P, H6, Rn);
    if Sinv.Some? {
      var nu := Minus(z, h);
      var d2 := Distance(nu, Sinv.value);
      var v := Judge(lib, s9.aux, ch, alpha, ACCEL_CHI2_GATE, d2, 2.0);
      TwinAux(lib, s9, s6, ch, alpha, ACCEL_CHI2_GATE, d2, 2.0);
      if v.weight.Some? {
        TwinGain(s9.P, s6.P, H, H6, Sinv.value, p);
        TwinCorrect(lib, 3, s9.(aux := v.aux), s6.(aux := v.aux), GainUsed(9, Gain(9, s9.P, H, Sinv.value), p), H,
                    GainUsed(6, Gain(6, s6.P, H6, Sinv.value), p), H6, Col(Times(v.weight.value, nu)), Rn);
      }
    }
  }

  lemma TwinAux(lib: Libm, s9: State, s6: State, ch: Channel, alpha: real, gate: real, d2: real, dof: real)
    requires Twin(s9, s6) && gate > 0.0 && dof != 0.0
    ensures var a := Judge(lib, s9.aux, ch, alpha, gate, d2, dof).aux;
            Twin(s9.(aux := a), s6.(aux := a))
  {
    hide NisRecord, Ema, HuberWeight, Supported, Lead;
  }

  lemma TwinYawGain(P: Mat, P6: Mat, H: Mat, H6: Mat, S: real)
    requires Supported(9, P) && Lead(6, 6, P, P6) && Lead(1, 6, H, H6) && ColsVanish(1, 9, H) && S != 0.0
    ensures Lead(6, 1, YawGain(9, P, H, S), YawGain(6, P6, H6, S))
    ensures RowsVanish(9, 1, YawGain(9, P, H, S))
  {
    hide At, PHt, InnovCov;
    TwinInnovCov(1, P, P6, H, H6, Isotropic(1, 0.0));
    YawGainRowsVanish(9, P, H, S);
    forall i, j | 0 <= i < 6 && 0 <= j < 1 ensures At(YawGain(9, P, H, S), i, j) == At(YawGain(6, P6, H6, S), i, j) {
      assert At(PHt(9, 1, P, H), i, 0) == At(PHt(6, 1, P6, H6), i, 0);
    }
  }

  lemma TwinYawJacobian(r2: V3)
    ensures Lead(1, 6, YawJacobian(9, r2), YawJacobian(6, r2))
    ensures ColsVanish(1, 9, YawJacobian(9, r2))
  {}

  lemma TwinYaw(lib: Libm, s9: State, s6: State, y: real, R: real)
    requires Twin(s9, s6)
    ensures var r9 := EskfUpdateYaw(lib, 9, s9, y, R);
            var r6 := EskfUpdateYaw(lib, 6, s6, y, R);
            Twin(r9.0, r6.0) && r9.1 == r6.1
  {
    hide Correct, YawGain, Judge, InnovCov, YawJacobian, YawDistance, Weighted, Isotropic, Supported, Lead,
         RowsVanish, ColsVanish, At, QToR;
    var r2 := QToR(s9.q).r2;
    var H, H6 := YawJacobian(9, r2), YawJacobian(6, r2);
    TwinYawJacobian(r2);
    TwinInnovCov(1, s9.P, s6.P, H, H6, Isotropic(1, R));
    var S := YawInnovVar(9, s9.P, H, R);
    assert S == YawInnovVar(6, s6.P, H6, R);
    if S >= 0.000000000001 {
      var d2 := YawDistance(y, S);
      var alpha := s9.aux.tun.nisMagAlpha;
      var v := Judge(lib, s9.aux, MagChannel, alpha, YAW_CHI2_GATE, d2, 1.0);
      TwinAux(lib, s9, s6, MagChannel, alpha, YAW_CHI2_GATE, d2, 1.0);
      if v.weight.Some? {
        TwinYawGain(s9.P, s6.P, H, H6, S);
        TwinCorrect(lib, 1, s9.(aux := v.aux), s6.(aux := v.aux), YawGain(9, s9.P, H, S), H, YawGain(6, s6.P, H6, S), H6,
                    Weighted(y, v.weight.value), Isotropic(1, R));
      }
    }
  }

  // ---------- prediction ----------

  lemma LeadPhi(w: V3, dt: real, phi: real)
    ensures Lead(6, 6, Phi(9, w, dt, phi), Phi(6, w, dt, phi))
  {}

  lemma TwinPredictCov(P: Mat, P6: Mat, w: V3, dt: real, phi: real, Q: int -> real, Q6: int -> real)
    requires Supported(9, P) && Lead(6, 6, P, P6) && (forall i :: 6 <= i < 9 ==> Q(i) == 0.0)
    requires forall i :: 0 <= i < 6 ==> Q(i) == Q6(i)
    ensures var C, C6 := PredictCov(9, P, Phi(9, w, dt, phi), Q), PredictCov(6, P6, Phi(6, w, dt, phi), Q6);
            Lead(6, 6, C, C6) && Supported(9, C) && IsMat(C, 9, 9) && IsMat(C6, 6, 6)
  {
    hide Phi, Congruence, Add, Symmetrize, At, Split, Supported, Lead;
    var F, F6 := Phi(9, w, dt, phi), Phi(6, w, dt, phi);
    LeadPhi(w, dt, phi);
    PhiSplit(9, w, dt, phi);
    LeadCongruence(F, P, F6, P6);
    SupportedCongruence(9, F, P);
    DiagTwin(Q, Q6);
    var D, D6 := Diag(9, Q), Diag(6, Q6);
    LeadAdd(Congruence(9, 9, F, P), D, Congruence(6, 6, F6, P6), D6);
    SupportedAdd(9, Congruence(9, 9, F, P), D);
    LeadSymmetrize(Add(9, 9, Congruence(9, 9, F, P), D), Add(6, 6, Congruence(6, 6, F6, P6), D6));
    SupportedSymmetrize(9, Add(9, 9, Congruence(9, 9, F, P), D));
    SymmetrizeMat(9, Add(9, 9, Congruence(9, 9, F, P), D));
    SymmetrizeMat(6, Add(6, 6, Congruence(6, 6, F6, P6), D6));
  }

  lemma DiagTwin(Q: int -> real, Q6: int -> real)
    requires forall i :: 6 <= i < 9 ==> Q(i) == 0.0
    requires forall i :: 0 <= i < 6 ==> Q(i) == Q6(i)
    ensures Lead(6, 6, Diag(9, Q), Diag(6, Q6)) && Supported(9, Diag(9, Q))
  {}

  lemma LeadTrace(C: Mat, C6: Mat)
    requires Lead(6, 6, C, C6)
    ensures At(C, 0, 0) == At(C6, 0, 0) && At(C, 1, 1) == At(C6, 1, 1) && At(C, 2, 2) == At(C6, 2, 2)
  {}

  lemma TwinPredict(lib: Libm, s9: State, s6: State, gyro: V3, dtS: real)
    requires Twin(s9, s6) && Runnable(s9)
    ensures Twin(Predict(lib, 9, s9, gyro, dtS), Predict(lib, 6, s6, gyro, dtS))
  {
    hide PredictCov, Phi, ProcessNoise, WaveNoise, WavePhi, QNormalize, QMul, QFromRotvec, At, Supported, Lead;
    if s9.aux.initialized {
      var t := s9.aux.tun;
      var dt := if dtS > 0.0 then dtS else s9.aux.dt;
      var w := Minus(gyro, s9.bias);
      var phi := WavePhi(lib, t, dt);
      var qw := WaveNoise(lib, t, dt);
      var qs := dt / s9.aux.dt;
      var Q := i => ProcessNoise(t, qs, qw, i);
      WaveOff(9, t, qs, qw);
      var P9 := Predict(lib, 9, s9, gyro, dtS).P;
      var P6 := Predict(lib, 6, s6, gyro, dtS).P;
      TwinPredictCov(s9.P, s6.P, w, dt, phi, Q, Q);
      LeadTrace(PredictCov(9, s9.P, Phi(9, w, dt, phi), Q), PredictCov(6, s6.P, Phi(6, w, dt, phi), Q));
    }
  }

  // ---------- the remaining calls ----------

  lemma TwinReset(s9: State, s6: State, a: Aux)
    requires Twin(s9, s6) && a.tun.waveEnabled == s9.aux.tun.waveEnabled
    ensures Twin(ResetState(9, s9).(aux := a), ResetState(6, s6).(aux := a))
  {
    DiagTwin(i => InitialVariance(s9.aux.tun, i), i => InitialVariance(s6.aux.tun, i));
  }

  lemma TwinAccel(lib: Libm, s9: State, s6: State, m: ImuSample)
    requires Twin(s9, s6)
    ensures Twin(UpdateAccel(lib, 9, s9, m), UpdateAccel(lib, 6, s6, m))
  {
    hide EskfUpdate, Isotropic, AccelVariance, AccelBookkeeping, GravityDirection, EmaAlpha, QToR, Norm, Supported, Lead,
         SpecificForce, AccelUsable;
    SameForce(lib, s9, s6, m);
    BookkeepingOff(lib, s9.aux, Norm(lib, SpecificForce(s9, m)) / G_MS2);
    if s9.aux.initialized && AccelUsable(lib, s9, m) {
      AccelNonzero(lib, s9, m);
      var acc := SpecificForce(s9, m);
      var an := Norm(lib, acc);
      var a1 := AccelBookkeeping(lib, s9.aux, an / G_MS2);
      var z := GravityDirection(acc, an);
      var alpha := EmaAlpha(lib, a1.health.dtAccum, GATE_TAU_S);
      var a2 := a1.(health := a1.health.(dtAccum := 0.0), gBody := z, gBodyValid := true);
      TwinEskf(lib, s9.(aux := a2), s6.(aux := a2), QToR(s9.q).r2, z, Isotropic(3, AccelVariance(a2)), AccelChannel,
               alpha, Some(QToR(s9.q).r2));
    }
  }

  lemma SameForce(lib: Libm, s9: State, s6: State, m: ImuSample)
    requires s9.bias == s6.bias && s9.aux == s6.aux
    ensures SpecificForce(s9, m) == SpecificForce(s6, m)
    ensures AccelUsable(lib, s9, m) == AccelUsable(lib, s6, m)
  {}

  lemma BookkeepingOff(lib: Libm, a: Aux, ag: real)
    ensures AccelBookkeeping(lib, a, ag).tun == a.tun
  {}

  lemma TwinAccept(r9: (State, Outcome), r6: (State, Outcome))
    requires Twin(r9.0, r6.0) && r9.1 == r6.1
    ensures Twin(Accept(r9), Accept(r6))
  {
    hide Supported, Lead;
  }

  lemma TwinFuse(lib: Libm, s9: State, s6: State, uncal: bool, R: M33, mNed: V3, h: V3, z: V3, hMag: real, resSq: real)
    requires Twin(s9, s6) && hMag > 0.0
    ensures Twin(MagFuse(lib, 9, s9, uncal, R, mNed, h, z, hMag, resSq),
                 MagFuse(lib, 6, s6, uncal, R, mNed, h, z, hMag, resSq))
  {
    hide EskfUpdate, EskfUpdateYaw, DipNoise, HeadingInnov, Horizontal, Accept, DirectionVariance, Supported, Lead;
    var a := s9.aux;
    var mh := Horizontal(lib, a.mRef);
    var hdgOk := mh >= 0.2 * hMag && Horizontal(lib, mNed) >= 0.2 * hMag;
    var y := if hdgOk then HeadingInnov(lib, mNed, a.mRef) else 0.0;
    if hdgOk {
      var a2 := if uncal && a.tun.uncalReject > 0.0 then Withdrawal(a, mh / hMag) else a;
      var R2 := DirectionVariance(a.tun.Rm, mh);
      TwinYaw(lib, s9.(aux := a2), s6.(aux := a2), y, R2);
      TwinAccept(EskfUpdateYaw(lib, 9, s9.(aux := a2), y, R2), EskfUpdateYaw(lib, 6, s6.(aux := a2), y, R2));
    }
    var Rn := DipNoise(lib, a, R, h, hMag, mh, DirectionVariance(a.tun.Rm, hMag));
    TwinEskf(lib, s9, s6, h, z, Rn, MagChannel, a.tun.nisMagAlpha, None);
    TwinAccept(EskfUpdate(lib, 9, s9, h, z, Rn, MagChannel, a.tun.nisMagAlpha, None, None),
               EskfUpdate(lib, 6, s6, h, z, Rn, MagChannel, a.tun.nisMagAlpha, None, None));
  }

  lemma TwinMref(lib: Libm, s9: State, s6: State, m: MagSample)
    requires Twin(s9, s6)
    ensures Twin(MrefAcquire(lib, s9, m), MrefAcquire(lib, s6, m))
  {
    hide NorthTurn, QToR, MulV, Times, Plus, MeanOf, WindowFull, Horizontal, Supported, Lead;
  }

  lemma HealthOff(lib: Libm, a: Aux, mNed: V3, zMag: real, hMag: real)
    requires hMag != 0.0
    ensures MagHealth(lib, a, mNed, zMag, hMag).tun == a.tun
  {
    hide Ema, HeadingInnov, Horizontal, Abs;
  }

  lemma LearnOff(lib: Libm, a: Aux, mb: V3, zMag: real, resSq: real, uncal: bool)
    requires zMag != 0.0
    ensures LearnReference(lib, a, mb, zMag, resSq, uncal).tun == a.tun
  {
    hide Dot, Horizontal;
  }

  lemma TwinInvariants(lib: Libm, s9: State, s6: State, h: real, z: real)
    requires Twin(s9, s6)
    ensures Twin(SetMrefInvariants(lib, s9, h, z), SetMrefInvariants(lib, s6, h, z))
  {
    hide Supported, Lead;
    var a9, a6 := SetMrefInvariants(lib, s9, h, z).aux, SetMrefInvariants(lib, s6, h, z).aux;
    SameInvariants(lib, s9, s6, h, z);
  }

  lemma SameInvariants(lib: Libm, s9: State, s6: State, h: real, z: real)
    requires s9.aux == s6.aux
    ensures SetMrefInvariants(lib, s9, h, z).aux == SetMrefInvariants(lib, s6, h, z).aux
    ensures SetMrefInvariants(lib, s9, h, z).aux.tun == s9.aux.tun
  {
    hide Horizontal, Reshaped;
  }

  lemma TwinMag(lib: Libm, s9: State, s6: State, m: MagSample)
    requires Twin(s9, s6)
    ensures Twin(UpdateMag(lib, 9, s9, m), UpdateMag(lib, 6, s6, m))
  {
    hide MagFuse, Unitized, Norm, Dot, Times, QToR, MulV, TMulV, Minus, MrefAcquire, Supported, Lead, MagHealth,
         LearnReference;
    TwinMref(lib, s9, s6, m);
    if s9.aux.initialized && m.valid && s9.aux.mRefValid && (m.calibrated || s9.aux.tun.fuseUncal) {
      var uncal := !m.calibrated;
      var a1 := if uncal then s9.aux.(uncalSeen := true) else s9.aux;
      var mb := Times(0.01, m.field);
      var R := QToR(s9.q);
      var hRaw := TMulV(R, s9.aux.mRef);
      var hMag := Norm(lib, hRaw);
      var zMag := Norm(lib, mb);
      if hMag >= 0.000001 && zMag >= 0.000001 {
        var h, z := Unitized(hRaw, hMag), Unitized(mb, zMag);
        var d := Minus(z, h);
        var mNed := MulV(R, mb);
        var a2 := MagHealth(lib, a1, mNed, zMag, hMag);
        var a3 := LearnReference(lib, a2, mb, zMag, Dot(d, d), uncal);
        HealthOff(lib, a1, mNed, zMag, hMag);
        LearnOff(lib, a2, mb, zMag, Dot(d, d), uncal);
        TwinFuse(lib, s9.(aux := a3), s6.(aux := a3), uncal, R, mNed, h, z, hMag, Dot(d, d));
      }
    }
  }

  /** An operation that leaves the wave state off. */
  predicate KeepsWaveOff(op: Op) {
    ValidOp(op) && (op.ReconfigureOp? ==> !(op.cfg.waveAccel > 0.0 && op.cfg.waveTau > 0.0))
  }

  lemma TwinReconfigure(lib: Libm, s9: State, s6: State, c: Config)
    requires Twin(s9, s6) && s9.aux.dt > 0.0 && !(c.waveAccel > 0.0 && c.waveTau > 0.0)
    ensures Twin(Reconfigure(lib, 9, s9, c), Reconfigure(lib, 6, s6, c))
  {
    hide ConvThresh, Supported, Lead;
  }

  lemma TwinAlign(lib: Libm, s9: State, s6: State, accel: V3, mag: Option<V3>)
    requires Twin(s9, s6)
    ensures Twin(Align(lib, s9, accel, mag), Align(lib, s6, accel, mag))
  {
    hide AlignedAttitude, GravityDirection, QToR, MulV, Times, Norm, Supported, Lead;
  }

  lemma TwinStep(lib: Libm, s9: State, s6: State, op: Op)
    requires Twin(s9, s6) && KeepsWaveOff(op) && Runnable(s9) && Runnable(s6)
    ensures Twin(Step(lib, 9, s9, op), Step(lib, 6, s6, op))
  {
    hide Align, Predict, UpdateAccel, UpdateMag, Reconfigure, ResetState, SetMrefInvariants, Supported, Lead;
    match op
    case AlignOp(a, m) => TwinAlign(lib, s9, s6, a, m);
    case PredictOp(g, dt) => TwinPredict(lib, s9, s6, g, dt);
    case AccelOp(m) => TwinAccel(lib, s9, s6, m);
    case MagOp(m) => TwinMag(lib, s9, s6, m);
    case ReconfigureOp(c) => TwinReconfigure(lib, s9, s6, c);
    case SanitizeOp => TwinSanitize(s9, s6);
    case InvariantsOp(h, z) => TwinInvariants(lib, s9, s6, h, z);
    case SpeedOp(v) =>
    case VibrationOp(lo, hi, k) =>
  }

  lemma TwinSanitize(s9: State, s6: State)
    requires Twin(s9, s6)
    ensures Twin(SanitizeReset(9, s9), SanitizeReset(6, s6))
  {
    hide Supported, Lead, Diag;
    TwinReset(s9, s6, SanitizeReset(9, s9).aux);
  }

  // ---------- the six-state filter inside a nine-state one ----------

  /** The same filter with the wave coordinates dropped. */
  function Restrict(s9: State): State {
    s9.(P := Tab(6, 6, (i, j) => At(s9.P, i, j)))
  }

  function Select(): (E: Mat)
    ensures IsMat(E, 6, 9)
  {
    Tab(6, 9, (i, j) => if i == j then 1.0 else 0.0)
  }

  lemma RestrictEntry(P: Mat, i: nat, j: nat)
    requires i < 6 && j < 6
    ensures At(Congruence(6, 9, Select(), P), i, j) == At(P, i, j)
  {
    hide At;
    var E := Select();
    var EP := Mul(6, 9, 9, E, P);
    forall c | 0 <= c < 9 ensures At(EP, i, c) == At(P, i, c) {
      MulAt(6, 9, 9, E, P, i, c);
      forall k | 0 <= k < 9 && k != i ensures At(E, i, k) * At(P, k, c) == 0.0 {
        assert At(E, i, k) == 0.0;
      }
      SumSingle(9, i, k => At(E, i, k) * At(P, k, c));
      assert At(E, i, i) == 1.0;
    }
    MulAt(6, 9, 6, EP, T(6, 9, E), i, j);
    forall k | 0 <= k < 9 && k != j ensures At(EP, i, k) * At(T(6, 9, E), k, j) == 0.0 {
      TAt(6, 9, E, k, j);
      assert At(E, j, k) == 0.0;
    }
    SumSingle(9, j, k => At(EP, i, k) * At(T(6, 9, E), k, j));
    TAt(6, 9, E, j, j);
    assert At(E, j, j) == 1.0;
  }

  lemma RestrictCovariance(P: Mat)
    requires Covariance(9, P)
    ensures Covariance(6, Tab(6, 6, (i, j) => At(P, i, j)))
  {
    hide Congruence, Psd, Symmetric;
    var P6 := Tab(6, 6, (i, j) => At(P, i, j));
    CongruenceCovariance(6, 9, Select(), P);
    forall i, j | 0 <= i < 6 && 0 <= j < 6 ensures At(Congruence(6, 9, Select(), P), i, j) == At(P6, i, j) {
      RestrictEntry(P, i, j);
    }
    MatEq(Congruence(6, 9, Select(), P), P6, 6, 6);
  }

  lemma RestrictTwin(lib: Libm, s9: State)
    requires Good(lib, 9, s9) && !s9.aux.tun.waveEnabled
    ensures Good(lib, 6, Restrict(s9)) && Twin(s9, Restrict(s9))
  {
    hide Psd, Symmetric, Libm.Valid, Unit;
    RestrictCovariance(s9.P);
    assert Lead(6, 6, s9.P, Restrict(s9).P);
    assert Supported(6, Restrict(s9).P);
  }

  lemma TwinRuns(lib: Libm, s9: State, s6: State, ops: seq<Op>)
    requires Good(lib, 9, s9) && Good(lib, 6, s6) && Twin(s9, s6)
    requires forall k :: 0 <= k < |ops| ==> KeepsWaveOff(ops[k])
    ensures forall k :: 0 <= k < |ops| ==> ValidOp(ops[k])
    ensures Twin(Run(lib, 9, s9, ops), Run(lib, 6, s6, ops))
    decreases |ops|
  {
    hide GoodEstimate, Libm.Valid, Twin, Step;
    if ops != [] {
      RunnableAux(s9);
      RunnableAux(s6);
      TwinStep(lib, s9, s6, ops[0]);
      StepGood(lib, 9, s9, ops[0]);
      StepGood(lib, 6, s6, ops[0]);
      TwinRuns(lib, Step(lib, 9, s9, ops[0]), Step(lib, 6, s6, ops[0]), ops[1..]);
    }
  }

  /** From any state a run can reach with the wave state off, by configuration or by an on-to-off
      reconfigure, the filter goes on exactly as the six-state one would. */
  lemma DisabledIsSixState(lib: Libm, s9: State, ops: seq<Op>)
    requires Good(lib, 9, s9) && !s9.aux.tun.waveEnabled
    requires forall k :: 0 <= k < |ops| ==> KeepsWaveOff(ops[k])
    ensures Good(lib, 6, Restrict(s9))
    ensures forall k :: 0 <= k < |ops| ==> ValidOp(ops[k])
    ensures var r9, r6 := Run(lib, 9, s9, ops), Run(lib, 6, Restrict(s9), ops);
            && r9.q == r6.q && r9.bias == r6.bias && r9.aux == r6.aux && r9.waveAcc == ORIGIN
            && (forall i, j :: 0 <= i < 6 && 0 <= j < 6 ==> At(r9.P, i, j) == At(r6.P, i, j))
            && (forall i, j :: 0 <= i < 9 && 0 <= j < 9 && (6 <= i || 6 <= j) ==> At(r9.P, i, j) == 0.0)
  {
    hide GoodEstimate, Libm.Valid, Run;
    RestrictTwin(lib, s9);
    TwinRuns(lib, s9, Restrict(s9), ops);
  }
}
