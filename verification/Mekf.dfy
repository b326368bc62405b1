/**
 The filter object of src/fusion.c: the fields of mekf_t updated in place, the covariance
 as a 9×9 array filled by loops.  Every method is proved to take the value the fields hold
 to the value the specification functions of module Fusion give.
 */
module Mekf {
  import opened Sums
  import opened Matrix
  import opened FusionMath
  import opened Fusion
  import opened ArrayMat
  import opened FusionRuns

  // ---------- filling the small matrices ----------

  method ZeroInto(A: array2<real>)
    modifies A
    ensures forall i, j :: 0 <= i < A.Length0 && 0 <= j < A.Length1 ==> A[i, j] == 0.0
  {
    for i := 0 to A.Length0
      invariant forall x, y :: 0 <= x < i && 0 <= y < A.Length1 ==> A[x, y] == 0.0
    {
      for j := 0 to A.Length1
        invariant forall x, y :: 0 <= x < i && 0 <= y < A.Length1 ==> A[x, y] == 0.0
        invariant forall y :: 0 <= y < j ==> A[i, y] == 0.0
      {
        A[i, j] := 0.0;
      }
    }
  }

  method ColInto(v: V3, A: array2<real>)
    requires A.Length0 == 3 && A.Length1 == 1
    modifies A
    ensures Rows(A) == Col(v)
  {
    A[0, 0] := v.x;
    A[1, 0] := v.y;
    A[2, 0] := v.z;
    RowsAre(A, Col(v));
  }

  method ReadM33(A: array2<real>) returns (M: M33)
    requires A.Length0 == 3 && A.Length1 == 3
    ensures M == ToM33(Rows(A))
  {
    hide At;
    M := M33(V3(A[0, 0], A[0, 1], A[0, 2]), V3(A[1, 0], A[1, 1], A[1, 2]), V3(A[2, 0], A[2, 1], A[2, 2]));
  }

  /** Three entries of a column, as δθ, δb and δa_w are taken out of δx. */
  method ReadSub3(x: array2<real>, i0: nat) returns (v: V3)
    requires x.Length1 == 1 && i0 + 3 <= x.Length0
    ensures v == Sub3(Rows(x), i0)
  {
    hide At;
    v := V3(x[i0, 0], x[i0 + 1, 0], x[i0 + 2, 0]);
  }

  /** dir_jacobian. */
  method DirJacobianInto(h: V3, H: array2<real>)
    requires H.Length0 == 3 && H.Length1 == 9
    modifies H
    ensures Rows(H) == DirJacobian(9, h)
  {
    hide At, DirJacobian, EntryOf, Skew;
    ZeroInto(H);
    H[0, 1], H[0, 2] := -h.z, h.y;
    H[1, 0], H[1, 2] := h.z, -h.x;
    H[2, 0], H[2, 1] := -h.y, h.x;
    SkewEntries(h);
    forall i, j | 0 <= i < 3 && 0 <= j < 9 ensures H[i, j] == At(DirJacobian(9, h), i, j) {
      DirJacobianAt(h, i, j);
    }
    RowsAre(H, DirJacobian(9, h));
  }

  lemma SkewEntries(h: V3)
    ensures EntryOf(Skew(h), 0, 0) == 0.0 && EntryOf(Skew(h), 0, 1) == -h.z && EntryOf(Skew(h), 0, 2) == h.y
    ensures EntryOf(Skew(h), 1, 0) == h.z && EntryOf(Skew(h), 1, 1) == 0.0 && EntryOf(Skew(h), 1, 2) == -h.x
    ensures EntryOf(Skew(h), 2, 0) == -h.y && EntryOf(Skew(h), 2, 1) == h.x && EntryOf(Skew(h), 2, 2) == 0.0
    ensures forall i, j :: 3 <= j ==> EntryOf(Skew(h), i, j) == 0.0
  {}

  lemma DirJacobianAt(h: V3, i: nat, j: nat)
    requires i < 3 && j < 9
    ensures At(DirJacobian(9, h), i, j) == EntryOf(Skew(h), i, j)
  {}

  lemma RowOfMulM(A: M33, B: M33, i: nat)
    requires i < 3
    ensures RowOf(MulM(A, B), i) == TMulV(B, RowOf(A, i))
  {
    hide TMulV;
  }

  lemma EntryTMulV(B: M33, v: V3, j: nat)
    requires j < 3
    ensures Entry(TMulV(B, v), j) == v.x * EntryOf(B, 0, j) + v.y * EntryOf(B, 1, j) + v.z * EntryOf(B, 2, j)
  {}

  lemma InnerM33(A: M33, B: M33, i: nat, j: nat)
    requires i < 3 && j < 3
    ensures Inner(3, FromM33(A), FromM33(B), i, j) == EntryOf(MulM(A, B), i, j)
  {
    hide At, FromM33, RowOf, Entry, TMulV, MulM, EntryOf;
    var f := k => At(FromM33(A), i, k) * At(FromM33(B), k, j);
    Sum3(f);
    SumExt(3, k => At(FromM33(A), i, k) * At(FromM33(B), k, j), f);
    FromM33At(A, i, 0);
    FromM33At(A, i, 1);
    FromM33At(A, i, 2);
    FromM33At(B, 0, j);
    FromM33At(B, 1, j);
    FromM33At(B, 2, j);
    EntryOfRow(A, i);
    EntryOfMulM(A, B, i, j);
  }

  lemma EntryOfRow(A: M33, i: int)
    ensures EntryOf(A, i, 0) == RowOf(A, i).x && EntryOf(A, i, 1) == RowOf(A, i).y && EntryOf(A, i, 2) == RowOf(A, i).z
  {
    hide RowOf;
  }

  lemma EntryOfMulM(A: M33, B: M33, i: nat, j: nat)
    requires i < 3 && j < 3
    ensures EntryOf(MulM(A, B), i, j)
         == RowOf(A, i).x * EntryOf(B, 0, j) + RowOf(A, i).y * EntryOf(B, 1, j) + RowOf(A, i).z * EntryOf(B, 2, j)
  {
    hide RowOf, Entry, TMulV, MulM, EntryOf;
    RowOfMulM(A, B, i);
    EntryTMulV(B, RowOf(A, i), j);
    EntryOfIs(MulM(A, B), i, j);
  }

  lemma EntryOfIs(A: M33, i: int, j: int)
    ensures EntryOf(A, i, j) == Entry(RowOf(A, i), j)
  {
    hide RowOf, Entry;
  }

  /** Row i of the two blocks of wave_jacobian; the bias block keeps its zeros. */
  method WaveRow(h: V3, zhat: V3, inv: real, Pz: array2<real>, hx: array2<real>, i: nat, H: array2<real>)
    requires H.Length0 == 3 && H.Length1 == 9 && i < 3 && Pz != H && hx != H
    requires Pz.Length0 == 3 && Pz.Length1 == 3 && Rows(Pz) == FromM33(Projector(zhat))
    requires hx.Length0 == 3 && hx.Length1 == 3 && Rows(hx) == FromM33(Skew(h))
    requires forall y :: 0 <= y < 9 ==> H[i, y] == 0.0
    modifies H
    ensures forall y :: 0 <= y < 9 ==> H[i, y] == At(WaveJacobian(9, h, zhat, inv), i, y)
    ensures forall x, y :: 0 <= x < 3 && 0 <= y < 9 && x != i ==> H[x, y] == old(H[x, y])
  {
    hide At, Inner, Mul, FromM33, MulM, Projector, Skew, EntryOf, WaveJacobian;
    ghost var W := WaveJacobian(9, h, zhat, inv);
    for j := 0 to 3
      invariant forall x, y :: 0 <= x < 3 && 0 <= y < 9 && x != i ==> H[x, y] == old(H[x, y])
      invariant forall y :: 0 <= y < 9 ==> H[i, y] == if y < j || 6 <= y < 6 + j then At(W, i, y) else 0.0
    {
      assert Rows(hx) == FromM33(Skew(h));
      var s := InnerLoop(3, Pz, hx, i, j);
      InnerM33(Projector(zhat), Skew(h), i, j);
      FromM33At(Projector(zhat), i, j);
      WaveAttitudeAt(h, zhat, inv, i, j, s);
      WaveBlockAt(h, zhat, inv, i, j, Pz[i, j]);
      H[i, j] := s * inv;
      H[i, 6 + j] := -(Pz[i, j] * inv);
    }
    forall y | 0 <= y < 9 ensures H[i, y] == At(W, i, y) {
      if 3 <= y < 6 { WaveBiasAt(h, zhat, inv, i, y); }
    }
  }

  /** wave_jacobian; false when |h - aw| is too small to normalise. */
  method WaveJacobianInto(lib: Libm, h: V3, aw: V3, H: array2<real>) returns (ok: bool, zhat: V3)
    requires H.Length0 == 3 && H.Length1 == 9
    modifies H
    ensures ok <==> Norm(lib, Minus(h, aw)) >= 0.5
    ensures ok ==> Prediction(zhat, Rows(H)) == Predicted(lib, 9, h, Some(aw))
  {
    hide At, FromM33, Projector, Skew, WaveJacobian, Norm, Minus, Times;
    var v := Minus(h, aw);
    var vn := Norm(lib, v);
    if vn < 0.5 { return false, h; }
    ok := true;
    var inv := 1.0 / vn;
    zhat := Times(inv, v);
    var Pz, hx := new real[3, 3], new real[3, 3];
    M33Into(Projector(zhat), Pz);
    M33Into(Skew(h), hx);
    ZeroInto(H);
    ghost var W := WaveJacobian(9, h, zhat, inv);
    for i := 0 to 3
      invariant Rows(Pz) == FromM33(Projector(zhat)) && Rows(hx) == FromM33(Skew(h))
      invariant forall x, y :: 0 <= x < 3 && 0 <= y < 9 ==> H[x, y] == if x < i then At(W, x, y) else 0.0
    {
      WaveRow(h, zhat, inv, Pz, hx, i, H);
    }
    RowsAre(H, W);
  }

  lemma FromM33At(A: M33, i: nat, j: nat)
    requires i < 3 && j < 3
    ensures At(FromM33(A), i, j) == EntryOf(A, i, j)
  {}

  lemma WaveAttitudeAt(h: V3, zhat: V3, inv: real, i: nat, j: nat, s: real)
    requires i < 3 && j < 3 && s == EntryOf(MulM(Projector(zhat), Skew(h)), i, j)
    ensures At(WaveJacobian(9, h, zhat, inv), i, j) == s * inv
  {
    hide EntryOf, MulM, Projector, Skew;
  }

  lemma WaveBlockAt(h: V3, zhat: V3, inv: real, i: nat, j: nat, p: real)
    requires i < 3 && j < 3 && p == EntryOf(Projector(zhat), i, j)
    ensures At(WaveJacobian(9, h, zhat, inv), i, 6 + j) == -(p * inv)
  {
    hide EntryOf, MulM, Projector, Skew;
    assert (6 + j) - 6 == j;
  }

  lemma WaveBiasAt(h: V3, zhat: V3, inv: real, i: nat, j: nat)
    requires i < 3 && 3 <= j < 6
    ensures At(WaveJacobian(9, h, zhat, inv), i, j) == 0.0
  {
    hide EntryOf, MulM, Projector, Skew;
  }

  /** The attitude rows of the gain made orthogonal to the protected axis. */
  method ProtectInPlace(K: array2<real>, p: V3)
    requires K.Length0 == 9 && K.Length1 == 3
    modifies K
    ensures Rows(K) == Protect(9, old(Rows(K)), p)
  {
    hide At, Protect;
    ghost var K0 := Rows(K);
    for j := 0 to 3
      invariant forall x, y :: 0 <= x < 9 && 0 <= y < 3 ==>
        K[x, y] == if y < j then At(Protect(9, K0, p), x, y) else At(K0, x, y)
    {
      var d := p.x * K[0, j] + p.y * K[1, j] + p.z * K[2, j];
      K[0, j] := K[0, j] - p.x * d;
      K[1, j] := K[1, j] - p.y * d;
      K[2, j] := K[2, j] - p.z * d;
      forall x | 0 <= x < 9 ensures K[x, j] == At(Protect(9, K0, p), x, j) {
        ProtectAt(K0, p, x, j);
      }
    }
    RowsAre(K, Protect(9, K0, p));
  }

  lemma ProtectAt(K: Mat, p: V3, i: nat, j: nat)
    requires i < 9 && j < 3
    ensures At(Protect(9, K, p), i, j)
         == At(K, i, j) - Entry(p, i) * (p.x * At(K, 0, j) + p.y * At(K, 1, j) + p.z * At(K, 2, j))
  {
    hide Entry;
  }

  // ---------- the filter ----------

  class Mekf {
    const lib: Libm
    const P: array2<real>
    var q: Quat
    var bias: V3
    var waveAcc: V3
    var aux: Aux

    ghost predicate Valid() {
      P.Length0 == 9 && P.Length1 == 9
    }

    /** The value the fields hold. */
    ghost function Model(): State
      reads this, P
    {
      State(q, bias, waveAcc, Rows(P), aux)
    }

    /** The tail of eskf_update and eskf_update_yaw: inject K ν, then contract P. */
    method ApplyCorrection(m: nat, K: array2<real>, H: array2<real>, nu: array2<real>, R33: array2?<real>, R: real)
      requires Valid()
      requires K.Length0 == 9 && K.Length1 == m && H.Length0 == m && H.Length1 == 9 && nu.Length0 == m && nu.Length1 == 1
      requires R33 != null ==> R33.Length0 == m && R33.Length1 == m && R33 != P && R33 != K
      requires K != P && K != H && K != nu && H != P && nu != P
      modifies this, P, K
      ensures Model() == Correct(lib, 9, m, old(Model()), old(Rows(K)), old(Rows(H)), old(Rows(nu)), old(NoiseOf(m, R33, R)))
    {
      hide Mul, At, Rows, ResetJac, Residual, Joseph, Isotropic, QNormalize, QMul, QFromRotvec, Sub3, Symmetrize;
      var dx := new real[9, 1];
      MulInto(9, m, 1, K, nu, dx);
      var dth := ReadSub3(dx, 0);
      var db := ReadSub3(dx, 3);
      var da := ReadSub3(dx, 6);
      q := QNormalize(lib, QMul(q, QFromRotvec(lib, dth)));
      bias := Plus(bias, db);
      waveAcc := Plus(waveAcc, da);
      JosephInto(m, P, K, H, dth, R33, R);
    }

    /** The Jacobian and prediction eskf_update starts from. */
    method PredictedInto(h: V3, aw: Option<V3>, H: array2<real>) returns (zhat: V3)
      requires H.Length0 == 3 && H.Length1 == 9
      modifies H
      ensures Prediction(zhat, Rows(H)) == Predicted(lib, 9, h, aw)
    {
      hide DirJacobian, WaveJacobian, Rows, Norm, Minus;
      if aw.Some? {
        var ok;
        ok, zhat := WaveJacobianInto(lib, h, aw.value, H);
        if ok { return; }
      }
      DirJacobianInto(h, H);
      zhat := h;
    }

    /** PHᵀ, S and, when m33_inv accepts S, the gain PHᵀ S⁻¹. */
    method GainInto(H: array2<real>, R33: array2?<real>, R: real, K: array2<real>) returns (inv: Option<M33>)
      requires Valid() && H.Length0 == 3 && H.Length1 == 9 && K.Length0 == 9 && K.Length1 == 3 && K != H && K != P
      requires R33 != null ==> R33.Length0 == 3 && R33.Length1 == 3 && R33 != K
      modifies K
      ensures inv == InnovInverse(9, Rows(P), Rows(H), NoiseOf(3, R33, R))
      ensures inv.Some? ==> Rows(K) == Gain(9, Rows(P), Rows(H), inv.value)
    {
      hide Mul, At, Rows, Isotropic, T, IsMat, Inv, ToM33, InnovCov, FromM33;
      var PHt_, S := new real[9, 3], new real[3, 3];
      MulTInto(9, 9, 3, P, H, PHt_);
      InnovInto(9, 3, H, PHt_, R33, R, S, Rows(P));
      var SM := ReadM33(S);
      inv := Inv(SM);
      if inv.Some? {
        var Sinv := new real[3, 3];
        M33Into(inv.value, Sinv);
        MulInto(9, 3, 3, PHt_, Sinv, K);
      }
    }

    /** nis_record, then the gate: the Huber weight to use, or None when the sample is thrown out. */
    method Judge(ch: Channel, alpha: real, gate: real, d2: real, dof: real) returns (w: Option<real>)
      requires gate > 0.0 && dof != 0.0
      modifies this`aux
      ensures Verdict(aux, w) == Fusion.Judge(lib, old(aux), ch, alpha, gate, d2, dof)
    {
      hide RecordNis, GateHealth;
      aux := RecordNis(aux, ch, alpha, d2, dof);
      if d2 > GROSS_REJECT_MULT * gate {
        aux := GateHealth(aux, alpha, 0.0, 1.0);
        return None;
      }
      var k := 1.0;
      if d2 > gate {
        k := lib.sqrt(gate / d2);
      }
      aux := GateHealth(aux, alpha, k, 0.0);
      w := Some(k);
    }

    /** eskf_update with its gate set. */
    method EskfUpdate(h: V3, z: V3, R33: array2?<real>, R: real, ch: Channel, alpha: real,
                      aw: Option<V3>, protect: Option<V3>) returns (r: Outcome)
      requires Valid() && (R33 != null ==> R33.Length0 == 3 && R33.Length1 == 3 && R33 != P)
      modifies this, P
      ensures (Model(), r) == Fusion.EskfUpdate(lib, 9, old(Model()), h, z, old(NoiseOf(3, R33, R)), ch, alpha, aw, protect)
    {
      hide Rows, NoiseOf, Predicted, InnovInverse, Gain, Correct, Fusion.Judge, Distance, Protect, Minus, Col, IsMat, Times;
      var H, K := new real[3, 9], new real[9, 3];
      var zhat := PredictedInto(h, aw, H);
      var inv := GainInto(H, R33, R, K);
      if inv.None? { return Singular; }
      var nu := Minus(z, zhat);
      var w := Judge(ch, alpha, ACCEL_CHI2_GATE, Distance(nu, inv.value), 2.0);
      if w.None? { return Rejected; }
      ApplyVector(H, K, Times(w.value, nu), R33, R, protect);
      r := Applied;
    }

    /** The rest of eskf_update: protect the axis, then apply the weighted innovation. */
    method ApplyVector(H: array2<real>, K: array2<real>, nu: V3, R33: array2?<real>, R: real, protect: Option<V3>)
      requires Valid() && (R33 != null ==> R33.Length0 == 3 && R33.Length1 == 3 && R33 != P && R33 != K)
      requires H.Length0 == 3 && H.Length1 == 9 && K.Length0 == 9 && K.Length1 == 3 && H != K && H != P && K != P
      modifies this, P, K
      ensures Model() == Correct(lib, 9, 3, old(Model()), GainUsed(9, old(Rows(K)), protect), old(Rows(H)), Col(nu), old(NoiseOf(3, R33, R)))
    {
      hide Rows, NoiseOf, Correct, Protect, Col, IsMat;
      var nuCol := new real[3, 1];
      if protect.Some? { ProtectInPlace(K, protect.value); }
      ColInto(nu, nuCol);
      ApplyCorrection(3, K, H, nuCol, R33, R);
    }

    /** eskf_update_yaw. */
    method EskfUpdateYaw(y: real, R: real) returns (r: Outcome)
      requires Valid()
      modifies this, P
      ensures (Model(), r) == Fusion.EskfUpdateYaw(lib, 9, old(Model()), y, R)
    {
      hide Rows, YawInnovVar, YawGain, YawJacobian, Correct, Fusion.Judge, Weighted, QToR, Isotropic, IsMat;
      var H, PHt_, K, nu := new real[1, 9], new real[9, 1], new real[9, 1], new real[1, 1];
      YawJacobianInto(QToR(q).r2, H);
      var S := YawVarInto(H, R, PHt_);
      if S < 0.000000000001 { return Singular; }
      var w := Judge(MagChannel, aux.tun.nisMagAlpha, YAW_CHI2_GATE, YawDistance(y, S), 1.0);
      if w.None? { return Rejected; }
      YawGainInto(PHt_, S, K, Rows(P), Rows(H));
      nu[0, 0] := y * w.value;
      RowsAre(nu, Weighted(y, w.value)) by { WeightedAt(y, w.value); }
      ApplyCorrection(1, K, H, nu, null, R);
      r := Applied;
    }

    /** PHᵀ and S = R + H PHᵀ for the heading row. */
    method YawVarInto(H: array2<real>, R: real, PHt_: array2<real>) returns (S: real)
      requires Valid() && H.Length0 == 1 && H.Length1 == 9 && PHt_.Length0 == 9 && PHt_.Length1 == 1 && PHt_ != H && PHt_ != P
      modifies PHt_
      ensures Rows(PHt_) == PHt(9, 1, Rows(P), Rows(H))
      ensures S == YawInnovVar(9, Rows(P), Rows(H), R)
    {
      hide Mul, At, Rows, Isotropic, T, IsMat, InnovCov;
      var SA := new real[1, 1];
      MulTInto(9, 9, 1, P, H, PHt_);
      InnovInto(9, 1, H, PHt_, null, R, SA, Rows(P));
      S := SA[0, 0];
    }

    /** mekf_reset_state. */
    method ResetState()
      requires Valid()
      modifies this, P
      ensures Model() == Fusion.ResetState(9, old(Model()))
    {
      hide At, Sq, InitialCov;
      var t := aux.tun;
      q := Quat(1.0, 0.0, 0.0, 0.0);
      bias := aux.biasInit;
      waveAcc := ORIGIN;
      ZeroInto(P);
      for i := 0 to 3
        modifies P
        invariant forall x, y :: 0 <= x < 9 && 0 <= y < 9 ==>
          P[x, y] == if x == y && x < i then InitialVariance(t, x) else 0.0
      {
        P[i, i] := Sq(0.175);
      }
      for i := 3 to 6
        modifies P
        invariant forall x, y :: 0 <= x < 9 && 0 <= y < 9 ==>
          P[x, y] == if x == y && x < i then InitialVariance(t, x) else 0.0
      {
        P[i, i] := Sq(0.001);
      }
      if t.waveEnabled {
        for i := 6 to 9
          modifies P
          invariant forall x, y :: 0 <= x < 9 && 0 <= y < 9 ==>
            P[x, y] == if x == y && x < i then InitialVariance(t, x) else 0.0
        {
          P[i, i] := t.waveSig2;
        }
      }
      forall i, j | 0 <= i < 9 && 0 <= j < 9 ensures P[i, j] == At(InitialCov(9, t), i, j) {
        InitialCovAt(t, i, j);
      }
      RowsAre(P, InitialCov(9, t));
    }

    /** mekf_init. */
    constructor (l: Libm, c: Config, odr: real, magOdr: real, biasInit: V3)
      requires odr > 0.0
      ensures Valid() && fresh(P) && lib == l
      ensures Model() == InitState(l, 9, c, odr, magOdr, biasInit)
    {
      lib := l;
      P := new real[9, 9];
      q, bias, waveAcc := Quat(1.0, 0.0, 0.0, 0.0), ORIGIN, ORIGIN;
      var dt := 1.0 / odr;
      aux := Aux(dt, magOdr, biasInit, ORIGIN, false, ORIGIN, 0, false, false, false, 0,
                 DeriveTuning(l, dt, magOdr, c), 1.0, 0.0, false, 0.0, false, ORIGIN, false, 0,
                 Health(0.0, 0.0, 1.0, 0.0, 0.0, 1.0, 1.0, 1.0));
      new;
      hide DeriveTuning, Rows, InitialCov;
      ResetState();
    }

    /** mekf_reconfigure. */
    method Reconfigure(c: Config)
      requires Valid() && aux.dt > 0.0
      modifies this, P
      ensures Model() == Fusion.Reconfigure(lib, 9, old(Model()), c)
    {
      hide At, DeriveTuning, Seeded, Cleared;
      ghost var P0 := Rows(P);
      var wasEnabled := aux.tun.waveEnabled;
      aux := aux.(tun := DeriveTuning(lib, aux.dt, aux.magOdr, c));
      if aux.tun.waveEnabled && !wasEnabled {
        for i := 6 to 9
          modifies P
          invariant forall x, y :: 0 <= x < 9 && 0 <= y < 9 ==>
            P[x, y] == if x == y && 6 <= x < i then aux.tun.waveSig2 else At(P0, x, y)
        {
          P[i, i] := aux.tun.waveSig2;
        }
        RowsAre(P, Seeded(9, P0, aux.tun.waveSig2)) by {
          forall x, y | 0 <= x < 9 && 0 <= y < 9 ensures P[x, y] == At(Seeded(9, P0, aux.tun.waveSig2), x, y) {
            SeededAt(P0, aux.tun.waveSig2, x, y);
          }
        }
      } else if !aux.tun.waveEnabled && wasEnabled {
        for i := 0 to 9
          modifies P
          invariant forall x, y :: 0 <= x < 9 && 0 <= y < 9 ==>
            P[x, y] == if (x < i && 6 <= y) || (y < i && 6 <= x) then 0.0 else At(P0, x, y)
        {
          for j := 6 to 9
            modifies P
            invariant forall x, y :: 0 <= x < 9 && 0 <= y < 9 ==>
              P[x, y] == if (x < i && 6 <= y) || (y < i && 6 <= x) || (x == i && 6 <= y < j) || (y == i && 6 <= x < j)
                         then 0.0 else At(P0, x, y)
          {
            P[i, j] := 0.0;
            P[j, i] := 0.0;
          }
        }
        RowsAre(P, Cleared(9, P0)) by {
          forall x, y | 0 <= x < 9 && 0 <= y < 9 ensures P[x, y] == At(Cleared(9, P0), x, y) {
            ClearedAt(P0, x, y);
          }
        }
        waveAcc := ORIGIN;
      }
    }

    /** mekf_sanitize once it has found a value that is not finite. */
    method Sanitize()
      requires Valid()
      modifies this, P
      ensures Model() == SanitizeReset(9, old(Model()))
    {
      hide Rows, InitialCov;
      if aux.resetCount < 0xFFFF_FFFF {
        aux := aux.(resetCount := aux.resetCount + 1);
      }
      ResetState();
      aux := aux.(initialized := false, converged := false, mRefValid := false, mrefN := 0, mrefSum := ORIGIN,
                  stateReset := true);
    }

    /** mekf_set_mref_invariants. */
    method SetMrefInvariants(hGauss: real, zGauss: real)
      modifies this`aux
      ensures Model() == Fusion.SetMrefInvariants(lib, old(Model()), hGauss, zGauss)
    {
      hide Rows, Horizontal, Reshaped;
      if !aux.mRefValid || hGauss <= 0.0 { return; }
      var mh := Horizontal(lib, aux.mRef);
      if mh < 0.000001 { return; }
      var k := hGauss / mh;
      aux := aux.(mRef := Reshaped(aux.mRef, k, zGauss));
    }

    /** mekf_align. */
    method Align(accel: V3, mag: Option<V3>)
      modifies this
      ensures Model() == Fusion.Align(lib, old(Model()), accel, mag)
    {
      hide Rows, Norm, GravityTilt, MulV, QToR, YawTurn, Times;
      var an := Norm(lib, accel);
      if an < 0.5 * G_MS2 { return; }
      var tilt := GravityTilt(lib, GravityDirection(accel, an));
      var yaw := 0.0;
      if mag.Some? {
        var m := MulV(QToR(tilt), mag.value);
        yaw := lib.atan2(-m.y, m.x);
      }
      q := YawTurn(lib, yaw * 0.5, tilt);
      if mag.Some? && !aux.mRefValid {
        aux := aux.(mRef := Times(0.01, MulV(QToR(q), mag.value)), mRefValid := true);
      }
      aux := aux.(initialized := true);
    }

    /** mekf_predict. */
    method Predict(gyro: V3, dtS: real)
      requires Valid() && Runnable(Model())
      modifies this, P
      ensures Model() == Fusion.Predict(lib, 9, old(Model()), gyro, dtS)
    {
      hide Rows, QNormalize, QMul, QFromRotvec, PredictCov, Phi, WavePhi, WaveNoise, Minus, Times, ProcessNoise, At;
      if !aux.initialized { return; }
      var dt := if dtS > 0.0 then dtS else aux.dt;
      var w := Minus(gyro, bias);
      q := QNormalize(lib, QMul(q, QFromRotvec(lib, Times(dt, w))));
      var phi := WavePhi(lib, aux.tun, dt);
      var qw := WaveNoise(lib, aux.tun, dt);
      PropagateCov(w, dt, phi, qw);
      if aux.tun.waveEnabled {
        waveAcc := Times(phi, waveAcc);
      }
      var trace := P[0, 0] + P[1, 1] + P[2, 2];
      aux := aux.(converged := trace < aux.tun.convThresh);
    }

    /** What every accel sample does to the quiescence tracker and the health clock. */
    method Bookkeep(ag: real)
      modifies this`aux
      ensures aux == AccelBookkeeping(lib, old(aux), ag)
    {
      hide Ema, Sq;
      var dev := ag - 1.0;
      aux := aux.(health := aux.health.(quiet := Ema(aux.health.quiet, aux.dt / 2.0, Sq(dev))));
      aux := aux.(health := aux.health.(dtAccum := aux.health.dtAccum + aux.dt));
    }

    /** accel_geometry: the specific force, its length, and whether the update may use it. */
    method AccelGeometry(m: ImuSample) returns (acc: V3, an: real, usable: bool)
      ensures acc == SpecificForce(Model(), m) && an == Norm(lib, acc)
      ensures usable == AccelUsable(lib, Model(), m)
    {
      hide Rows, Norm, Unturned;
      acc := m.accel;
      if aux.speed > 0.1 {
        var wy, wz := m.gyro.y - bias.y, m.gyro.z - bias.z;
        acc := Unturned(acc, wy, wz, aux.speed);
      }
      an := Norm(lib, acc);
      var ag := an / G_MS2;
      if an < 0.000001 { return acc, an, false; }
      if ag < aux.tun.skipLo || ag > aux.tun.skipHi { return acc, an, false; }
      usable := true;
    }

    /** mekf_update_accel. */
    method UpdateAccel(m: ImuSample)
      requires Valid()
      modifies this, P
      ensures Model() == Fusion.UpdateAccel(lib, 9, old(Model()), m)
    {
      hide Rows, Norm, QToR, GravityDirection, EmaAlpha, Fusion.EskfUpdate, SpecificForce, Isotropic, AccelVariance, AccelBookkeeping;
      if !aux.initialized { return; }
      var acc, an, usable := AccelGeometry(m);
      Bookkeep(an / G_MS2);
      if !usable { return; }
      var z := GravityDirection(acc, an);
      var h := QToR(q).r2;
      var alpha := EmaAlpha(lib, aux.health.dtAccum, GATE_TAU_S);
      aux := aux.(health := aux.health.(dtAccum := 0.0), gBody := z, gBodyValid := true);
      var aw := if aux.tun.waveEnabled then Some(waveAcc) else None;
      var r := EskfUpdate(h, z, null, AccelVariance(aux), AccelChannel, alpha, aw, Some(h));
    }

    /** mref_acquire. */
    method MrefAcquire(m: MagSample)
      modifies this
      ensures Model() == Fusion.MrefAcquire(lib, old(Model()), m)
    {
      hide Rows, QToR, MulV, Times, Plus, NorthTurn, MeanOf, Horizontal;
      aux := aux.(mrefSum := Plus(aux.mrefSum, Times(0.01, MulV(QToR(q), m.field))));
      aux := aux.(mrefN := aux.mrefN + 1);
      if aux.mrefN as real < aux.magOdr * MREF_ACQUIRE_S { return; }
      var mean := MeanOf(aux.mrefSum, aux.mrefN);
      aux := aux.(mrefSum := ORIGIN, mrefN := 0);
      var mh := Horizontal(lib, mean);
      if mh < 0.000001 { return; }
      q := NorthTurn(lib, mean, q);
      aux := aux.(mRef := V3(mh, 0.0, mean.z), mRefValid := true);
    }

    /** The heading innovation, wrapped by the source's two loops. */
    method Heading(mNed: V3) returns (y: real)
      ensures y == HeadingInnov(lib, mNed, aux.mRef)
    {
      y := lib.atan2(mNed.y, mNed.x) - lib.atan2(aux.mRef.y, aux.mRef.x);
      while y > PI
        invariant WrapUp(WrapDown(y)) == HeadingInnov(lib, mNed, aux.mRef)
        decreases y
      {
        y := y - 2.0 * PI;
      }
      while y < -PI
        invariant WrapUp(y) == HeadingInnov(lib, mNed, aux.mRef)
        decreases -y
      {
        y := y + 2.0 * PI;
      }
    }

    /** The compass-health block of mekf_update_mag. */
    method FeedMagHealth(mNed: V3, zMag: real, hMag: real)
      requires hMag != 0.0
      modifies this`aux
      ensures aux == MagHealth(lib, old(aux), mNed, zMag, hMag)
    {
      hide Horizontal, HeadingInnov;
      var alpha := 1.0 / 3000.0;
      var anom := Abs(zMag - hMag) / hMag;
      aux := aux.(health := aux.health.(magAnom := Ema(aux.health.magAnom, alpha, anom)));
      if Horizontal(lib, aux.mRef) > 0.2 * hMag && Horizontal(lib, mNed) > 0.2 * hMag {
        var y := Heading(mNed);
        aux := aux.(health := aux.health.(magResid := Ema(aux.health.magResid, alpha, Abs(y))));
      }
    }

    /** The slow re-estimation of m_ref. */
    method Learn(mb: V3, zMag: real, resSq: real, uncal: bool)
      requires zMag != 0.0
      modifies this`aux
      ensures aux == LearnReference(lib, old(aux), mb, zMag, resSq, uncal)
    {
      hide Horizontal, Dot, Ema, Reshaped, Clamp, Over, Prod, CosFromSin;
      if !uncal && aux.tun.mrefAlpha > 0.0 && aux.gBodyValid && resSq < 0.1 && aux.health.quiet < 0.0002 {
        var sinDip := Clamp(Over(Dot(mb, aux.gBody), zMag));
        var cosDip := CosFromSin(lib, sinDip);
        var tgtV, tgtH := Prod(zMag, sinDip), Prod(zMag, cosDip);
        var mh := Horizontal(lib, aux.mRef);
        var v := Ema(aux.mRef.z, aux.tun.mrefAlpha, tgtV);
        if mh > 0.000001 {
          var k := Ema(1.0, aux.tun.mrefAlpha, Over(tgtH, mh));
          aux := aux.(mRef := Reshaped(aux.mRef, k, v));
        } else {
          aux := aux.(mRef := V3(aux.mRef.x, aux.mRef.y, v));
        }
      }
    }

    /** The dip direction's rank-one noise, or null when the source takes the scalar path. */
    method DipNoiseInto(R: M33, h: V3, hMag: real, mh: real, Rm: real) returns (R33: array2?<real>)
      requires hMag > 0.0
      ensures R33 != null ==> fresh(R33) && R33.Length0 == 3 && R33.Length1 == 3
      ensures NoiseOf(3, R33, Rm) == DipNoise(lib, aux, R, h, hMag, mh, Rm)
    {
      hide Rows, TMulV, Cross, Norm, Isotropic, RankOneNoise, Unitized;
      R33 := null;
      if aux.tun.dipSig2 > 0.0 && mh > 0.2 * hMag {
        var aBody := TMulV(R, V3(aux.mRef.y / mh, -aux.mRef.x / mh, 0.0));
        var u := Cross(aBody, h);
        var un := Norm(lib, u);
        if un > 0.000001 {
          R33 := new real[3, 3];
          RankOneInto(Rm, aux.tun.dipSig2, Unitized(u, un), R33);
        }
      }
    }

    method Withdraw(ratio: real)
      modifies this`aux
      ensures aux == Withdrawal(old(aux), ratio)
    {
      var limit := aux.tun.uncalReject * ratio;
      aux := aux.(uncalLimit := limit);
      if !aux.uncalWithdrawn && aux.health.magAnom > limit {
        aux := aux.(uncalWithdrawn := true);
      } else if aux.uncalWithdrawn && aux.health.magAnom < 0.8 * limit {
        aux := aux.(uncalWithdrawn := false);
      }
    }

    /** mekf_update_mag after its gates on the sample: choose an update and run it. */
    method Fuse(uncal: bool, R: M33, mNed: V3, h: V3, z: V3, hMag: real, resSq: real)
      requires Valid() && hMag > 0.0
      modifies this, P
      ensures Model() == MagFuse(lib, 9, old(Model()), uncal, R, mNed, h, z, hMag, resSq)
    {
      hide Rows, Horizontal, HeadingInnov, Fusion.FuseYaw, Fusion.FuseVector, Anomalous;
      var mh := Horizontal(lib, aux.mRef);
      var hdgOk := mh >= 0.2 * hMag && Horizontal(lib, mNed) >= 0.2 * hMag;
      var y := 0.0;
      if hdgOk { y := Heading(mNed); }
      if !uncal && aux.converged && Anomalous(lib, aux.tun, mh, hMag, y, resSq) { return; }
      if aux.tun.yawOnly || uncal {
        if !hdgOk { return; }
        FuseYaw(uncal, y, mh, hMag);
      } else {
        FuseVector(R, h, z, hMag, mh);
      }
    }

    method FuseYaw(uncal: bool, y: real, mh: real, hMag: real)
      requires Valid() && mh > 0.0 && hMag > 0.0
      modifies this, P
      ensures Model() == Fusion.FuseYaw(lib, 9, old(Model()), uncal, y, mh, hMag)
    {
      hide Rows, Withdrawal, Fusion.EskfUpdateYaw, DirectionVariance;
      var R := DirectionVariance(aux.tun.Rm, mh);
      if uncal && aux.tun.uncalReject > 0.0 {
        Withdraw(mh / hMag);
        if aux.uncalWithdrawn { return; }
      }
      var rc := EskfUpdateYaw(y, R);
      if rc == Applied { aux := aux.(accepted := aux.accepted + 1); }
    }

    method FuseVector(R: M33, h: V3, z: V3, hMag: real, mh: real)
      requires Valid() && hMag > 0.0
      modifies this, P
      ensures Model() == Fusion.FuseVector(lib, 9, old(Model()), R, h, z, hMag, mh)
    {
      hide Rows, Fusion.EskfUpdate, NoiseOf, DipNoise, DirectionVariance;
      var Rm := DirectionVariance(aux.tun.Rm, hMag);
      var R33 := DipNoiseInto(R, h, hMag, mh, Rm);
      var rc := EskfUpdate(h, z, R33, Rm, MagChannel, aux.tun.nisMagAlpha, None, None);
      if rc == Applied { aux := aux.(accepted := aux.accepted + 1); }
    }

    /** mekf_update_mag. */
    method UpdateMag(m: MagSample)
      requires Valid()
      modifies this, P
      ensures Model() == Fusion.UpdateMag(lib, 9, old(Model()), m)
    {
      hide Rows, Norm, QToR, MulV, TMulV, Times, Unitized, Dot, Minus, MagHealth, LearnReference, MagFuse, Fusion.MrefAcquire;
      if !aux.initialized || !m.valid { return; }
      if !aux.mRefValid {
        MrefAcquire(m);
        return;
      }
      var uncal := !m.calibrated;
      if uncal {
        if !aux.tun.fuseUncal { return; }
        aux := aux.(uncalSeen := true);
      }
      var mb := Times(0.01, m.field);
      var R := QToR(q);
      var hRaw := TMulV(R, aux.mRef);
      var hMag := Norm(lib, hRaw);
      if hMag < 0.000001 { return; }
      var h := Unitized(hRaw, hMag);
      var zMag := Norm(lib, mb);
      if zMag < 0.000001 { return; }
      var z := Unitized(mb, zMag);
      var d := Minus(z, h);
      var resSq := Dot(d, d);
      var mNed := MulV(R, mb);
      FeedMagHealth(mNed, zMag, hMag);
      var ratio := zMag / hMag;
      if ratio < 0.5 || ratio > 2.0 { return; }
      if resSq > 4.0 { return; }
      Learn(mb, zMag, resSq, uncal);
      Fuse(uncal, R, mNed, h, z, hMag, resSq);
    }

    /** One call, or one store the fusion thread makes. */
    method Perform(op: Op)
      requires Valid() && Runnable(Model())
      modifies this, P
      ensures Model() == Step(lib, 9, old(Model()), op)
    {
      hide Rows, Fusion.Align, Fusion.Predict, Fusion.UpdateAccel, Fusion.UpdateMag, Fusion.Reconfigure, SanitizeReset,
           Fusion.SetMrefInvariants;
      match op {
        case AlignOp(a, m) => Align(a, m);
        case PredictOp(g, dt) => Predict(g, dt);
        case AccelOp(m) => UpdateAccel(m);
        case MagOp(m) => UpdateMag(m);
        case ReconfigureOp(c) => Reconfigure(c);
        case SanitizeOp => Sanitize();
        case InvariantsOp(h, z) => SetMrefInvariants(h, z);
        case SpeedOp(v) => aux := aux.(speed := v);
        case VibrationOp(lo, hi, k) => aux := aux.(tun := aux.tun.(skipLo := lo, skipHi := hi), raScale := k);
      }
    }

    /** Any interleaving of calls on the object is a run of the specification, so it keeps the invariant. */
    method PerformAll(ops: seq<Op>)
      requires Valid() && Good(lib, 9, Model())
      requires forall k :: 0 <= k < |ops| ==> ValidOp(ops[k])
      modifies this, P
      ensures Good(lib, 9, Model())
      ensures Model() == Run(lib, 9, old(Model()), ops)
    {
      hide Rows, Step, GoodAux, GoodEstimate, Libm.Valid, Run;
      RunnableGood(lib, Model());
      RunNil(lib, Model());
      for i := 0 to |ops|
        invariant Good(lib, 9, Model())
        invariant Run(lib, 9, old(Model()), ops) == Run(lib, 9, Model(), ops[i..])
      {
        assert ops[i..][0] == ops[i] && ops[i..][1..] == ops[i + 1..];
        RunCons(lib, Model(), ops[i..]);
        RunnableGood(lib, Model());
        Perform(ops[i]);
      }
      assert ops[|ops|..] == [];
      RunNil(lib, Model());
    }

    /** P ← Φ P Φᵀ + Q. */
    method PropagateCov(w: V3, dt: real, phi: real, qw: real)
      requires Valid() && aux.dt > 0.0
      modifies P
      ensures Rows(P) == PredictCov(9, old(Rows(P)), Phi(9, w, dt, phi), NoiseDiagonal(aux.tun, dt / aux.dt, qw))
    {
      hide Rows, Mul, T, Phi, Symmetrize, Congruence, ProcessNoise, Add, Diag, IsMat, At;
      var F, Ptmp, Pnew := new real[9, 9], new real[9, 9], new real[9, 9];
      PhiInto(w, dt, phi, F);
      MulInto(9, 9, 9, F, P, Ptmp);
      MulTInto(9, 9, 9, Ptmp, F, Pnew);
      CongruenceIs(9, 9, Rows(F), Rows(P));
      AddProcessNoise(aux.tun, dt / aux.dt, qw, Pnew);
      SymmetrizeInPlace(9, Pnew);
      CopyInto(9, Pnew, P);
    }
  }

  /** Three consecutive entries of a row. */
  method WriteRow3(A: array2<real>, i: nat, v: V3)
    requires i < A.Length0 && 3 <= A.Length1
    modifies A
    ensures forall x, y :: 0 <= x < A.Length0 && 0 <= y < A.Length1 ==>
      A[x, y] == if x == i && y < 3 then Entry(v, y) else old(A[x, y])
  {
    A[i, 0], A[i, 1], A[i, 2] := v.x, v.y, v.z;
  }

  /** The entries (k, k + shift) for lo <= k < hi. */
  method WriteDiagonal(A: array2<real>, lo: nat, hi: nat, shift: nat, c: real)
    requires lo <= hi <= A.Length0 && hi + shift <= A.Length1
    modifies A
    ensures forall x, y :: 0 <= x < A.Length0 && 0 <= y < A.Length1 ==>
      A[x, y] == if lo <= x < hi && y == x + shift then c else old(A[x, y])
  {
    for k := lo to hi
      invariant forall x, y :: 0 <= x < A.Length0 && 0 <= y < A.Length1 ==>
        A[x, y] == if lo <= x < k && y == x + shift then c else old(A[x, y])
    {
      A[k, k + shift] := c;
    }
  }

  method PhiInto(w: V3, dt: real, phi: real, F: array2<real>)
    requires F.Length0 == 9 && F.Length1 == 9
    modifies F
    ensures Rows(F) == Phi(9, w, dt, phi)
  {
    hide At, Phi, PhiAt, Entry;
    var x, y, z := w.x * dt, w.y * dt, w.z * dt;
    ZeroInto(F);
    WriteRow3(F, 0, V3(1.0, z, -y));
    WriteRow3(F, 1, V3(-z, 1.0, x));
    WriteRow3(F, 2, V3(y, -x, 1.0));
    WriteDiagonal(F, 0, 3, 3, -dt);
    WriteDiagonal(F, 3, 6, 0, 1.0);
    WriteDiagonal(F, 6, 9, 0, phi);
    forall i, j | 0 <= i < 9 && 0 <= j < 9 ensures F[i, j] == At(Phi(9, w, dt, phi), i, j) {
      PhiEntry(w, dt, phi, x, y, z, i, j);
    }
    RowsAre(F, Phi(9, w, dt, phi));
  }

  lemma PhiEntry(w: V3, dt: real, phi: real, x: real, y: real, z: real, i: nat, j: nat)
    requires x == w.x * dt && y == w.y * dt && z == w.z * dt && i < 9 && j < 9
    ensures At(Phi(9, w, dt, phi), i, j)
         == if i < 3 && j < 3 then
              Entry(if i == 0 then V3(1.0, z, -y) else if i == 1 then V3(-z, 1.0, x) else V3(y, -x, 1.0), j)
            else if i < 3 && j == i + 3 then -dt
            else if i == j then (if i < 6 then 1.0 else phi)
            else 0.0
  {
    hide EntryOf, Skew;
    SkewEntries(w);
  }

  /** Q_d added to the diagonal, the wave block only while it is in use. */
  method AddProcessNoise(t: Tuning, qscale: real, qw: real, A: array2<real>)
    requires A.Length0 == 9 && A.Length1 == 9
    modifies A
    ensures Rows(A) == Add(9, 9, old(Rows(A)), Diag(9, NoiseDiagonal(t, qscale, qw)))
  {
    hide At, ProcessNoise, Add, Diag;
    ghost var A0, D := Rows(A), Diag(9, NoiseDiagonal(t, qscale, qw));
    AddDiagonal(A, 0, 3, t.Qg * qscale);
    AddDiagonal(A, 3, 6, t.Qb * qscale);
    if t.waveEnabled { AddDiagonal(A, 6, 9, qw); }
    forall i, j | 0 <= i < 9 && 0 <= j < 9 ensures A[i, j] == At(Add(9, 9, A0, D), i, j) {
      NoiseEntry(t, qscale, qw, A0, i, j);
    }
    RowsAre(A, Add(9, 9, A0, D));
  }

  lemma NoiseEntry(t: Tuning, qscale: real, qw: real, A: Mat, i: nat, j: nat)
    requires i < 9 && j < 9
    ensures At(Add(9, 9, A, Diag(9, NoiseDiagonal(t, qscale, qw))), i, j)
         == At(A, i, j) + if i != j then 0.0 else if i < 3 then t.Qg * qscale else if i < 6 then t.Qb * qscale
                          else if t.waveEnabled then qw else 0.0
  {}

  /** R33 = Rm·I + σ² u uᵀ. */
  method RankOneInto(R: real, sig2: real, u: V3, A: array2<real>)
    requires A.Length0 == 3 && A.Length1 == 3
    modifies A
    ensures Rows(A) == RankOneNoise(R, sig2, u)
  {
    hide At, RankOneNoise, Entry;
    ghost var N := RankOneNoise(R, sig2, u);
    for i := 0 to 3
      invariant forall x, y :: 0 <= x < i && 0 <= y < 3 ==> A[x, y] == At(N, x, y)
    {
      for j := 0 to 3
        invariant forall x, y :: 0 <= x < i && 0 <= y < 3 ==> A[x, y] == At(N, x, y)
        invariant forall y :: 0 <= y < j ==> A[i, y] == At(N, i, y)
      {
        A[i, j] := (if i == j then R else 0.0) + sig2 * Entry(u, i) * Entry(u, j);
        RankOneAt(R, sig2, u, i, j, A[i, j]);
      }
    }
    RowsAre(A, N);
  }

  lemma RankOneAt(R: real, sig2: real, u: V3, i: nat, j: nat, e: real)
    requires i < 3 && j < 3 && e == (if i == j then R else 0.0) + sig2 * Entry(u, i) * Entry(u, j)
    ensures At(RankOneNoise(R, sig2, u), i, j) == e
  {
    hide Entry;
  }

  lemma InitialCovAt(t: Tuning, i: nat, j: nat)
    requires i < 9 && j < 9
    ensures At(InitialCov(9, t), i, j) == if i == j then InitialVariance(t, i) else 0.0
  {}

  lemma SeededAt(P: Mat, sig2: real, i: nat, j: nat)
    requires i < 9 && j < 9
    ensures At(Seeded(9, P, sig2), i, j) == if i == j && 6 <= i then sig2 else At(P, i, j)
  {}

  lemma ClearedAt(P: Mat, i: nat, j: nat)
    requires i < 9 && j < 9
    ensures At(Cleared(9, P), i, j) == if 6 <= i || 6 <= j then 0.0 else At(P, i, j)
  {}

  method YawJacobianInto(r2: V3, H: array2<real>)
    requires H.Length0 == 1 && H.Length1 == 9
    modifies H
    ensures Rows(H) == YawJacobian(9, r2)
  {
    hide At, YawJacobian;
    ZeroInto(H);
    H[0, 0], H[0, 1], H[0, 2] := -r2.x, -r2.y, -r2.z;
    forall i, j | 0 <= i < 1 && 0 <= j < 9 ensures H[i, j] == At(YawJacobian(9, r2), i, j) {
      YawJacobianAt(r2, j);
    }
    RowsAre(H, YawJacobian(9, r2));
  }

  lemma YawJacobianAt(r2: V3, j: nat)
    requires j < 9
    ensures At(YawJacobian(9, r2), 0, j) == -Entry(r2, j)
  {}

  /** K = PHᵀ / S. */
  method YawGainInto(PHt_: array2<real>, S: real, K: array2<real>, ghost P: Mat, ghost H: Mat)
    requires S != 0.0 && PHt_.Length0 == 9 && PHt_.Length1 == 1 && K.Length0 == 9 && K.Length1 == 1 && K != PHt_
    requires Rows(PHt_) == PHt(9, 1, P, H)
    modifies K
    ensures Rows(K) == YawGain(9, P, H, S)
  {
    hide At, YawGain, PHt;
    for i := 0 to 9
      invariant forall x :: 0 <= x < i ==> K[x, 0] == At(YawGain(9, P, H, S), x, 0)
    {
      YawGainAt(P, H, S, i, PHt_[i, 0]);
      K[i, 0] := PHt_[i, 0] / S;
    }
    RowsAre(K, YawGain(9, P, H, S));
  }

  lemma YawGainAt(P: Mat, H: Mat, S: real, i: nat, p: real)
    requires S != 0.0 && i < 9 && p == At(PHt(9, 1, P, H), i, 0)
    ensures At(YawGain(9, P, H, S), i, 0) == p / S
  {
    hide PHt;
  }

  lemma WeightedAt(y: real, w: real)
    ensures At(Weighted(y, w), 0, 0) == y * w
  {}

  /** Joseph form with the error-state reset of dth folded in; K is left premultiplied. */
  method JosephInto(m: nat, P: array2<real>, K: array2<real>, H: array2<real>, dth: V3, R33: array2?<real>, R: real)
    requires P.Length0 == 9 && P.Length1 == 9
    requires K.Length0 == 9 && K.Length1 == m && H.Length0 == m && H.Length1 == 9
    requires R33 != null ==> R33.Length0 == m && R33.Length1 == m && R33 != P && R33 != K
    requires K != P && K != H && H != P
    modifies P, K
    ensures Rows(P) == Symmetrize(9, Joseph(9, m, Mul(9, 9, 9, ResetJac(9, dth), Residual(9, m, old(Rows(K)), Rows(H))),
                                            old(Rows(P)), Mul(9, 9, m, ResetJac(9, dth), old(Rows(K))), NoiseOf(m, R33, R)))
  {
    hide Mul, At, Rows, ResetJac, Residual, Congruence, Isotropic, Symmetrize, T, IsMat;
    var KH, IKH := new real[9, 9], new real[9, 9];
    MulInto(9, m, 9, K, H, KH);
    ResidualInto(9, m, KH, IKH, Rows(K), Rows(H));
    PremulRows3(9, m, dth, K);
    PremulRows3(9, 9, dth, IKH);
    CongruenceJoseph(m, P, K, IKH, R33, R);
  }

  /** P ← A P Aᵀ + K R Kᵀ, symmetrized. */
  method CongruenceJoseph(m: nat, P: array2<real>, K: array2<real>, A: array2<real>, R33: array2?<real>, R: real)
    requires P.Length0 == 9 && P.Length1 == 9 && A.Length0 == 9 && A.Length1 == 9
    requires K.Length0 == 9 && K.Length1 == m
    requires R33 != null ==> R33.Length0 == m && R33.Length1 == m && R33 != P
    requires K != P && A != P
    modifies P
    ensures Rows(P) == Symmetrize(9, Joseph(9, m, Rows(A), old(Rows(P)), Rows(K), NoiseOf(m, R33, R)))
  {
    hide Mul, At, Rows, Congruence, Isotropic, Symmetrize, T, IsMat;
    var Ptmp, Pnew := new real[9, 9], new real[9, 9];
    MulInto(9, 9, 9, A, P, Ptmp);
    MulTInto(9, 9, 9, Ptmp, A, Pnew);
    CongruenceIs(9, 9, Rows(A), Rows(P));
    AddNoise(9, m, Pnew, K, R33, R);
    SymmetrizeInPlace(9, Pnew);
    CopyInto(9, Pnew, P);
  }

  lemma RunnableGood(lib: Libm, s: State)
    requires Good(lib, 9, s)
    ensures Runnable(s)
  {
    hide GoodEstimate;
  }

  lemma RunNil(lib: Libm, s: State)
    requires Good(lib, 9, s)
    ensures Run(lib, 9, s, []) == s
  {}

  lemma RunCons(lib: Libm, s: State, ops: seq<Op>)
    requires Good(lib, 9, s) && ops != []
    requires forall k :: 0 <= k < |ops| ==> ValidOp(ops[k])
    ensures Runnable(s) && Good(lib, 9, Step(lib, 9, s, ops[0]))
    ensures Run(lib, 9, s, ops) == Run(lib, 9, Step(lib, 9, s, ops[0]), ops[1..])
  {
    RunnableGood(lib, s);
    StepGood(lib, 9, s, ops[0]);
    hide Good, Step;
  }

  lemma CongruenceIs(m: nat, n: nat, A: Mat, P: Mat)
    ensures Congruence(m, n, A, P) == Mul(m, n, m, Mul(m, n, n, A, P), T(m, n, A))
  {}
}
