/**
 The directions a measurement says nothing about.  A direction measurement carries no
 noise along itself, which is what makes its innovation two-dimensional; and an
 accelerometer says nothing about rotation around the vertical, so its update makes no
 correction there and removes no uncertainty there.
 */
module FusionNull {
  import opened FusionMath
  import opened Sums
  import opened Matrix
  import opened Fusion
  import opened FusionRuns

  // ---------- sums of three ----------

  /** The row h of attitude weights, zero on every other coordinate. */
  function Ext(n: nat, h: V3): (x: Mat)
    ensures IsMat(x, n, 1)
  {
    Tab(n, 1, (i, j) => Entry(h, i))
  }

  lemma SumFirst3(n: nat, f: int -> real)
    requires n >= 3 && forall k :: 3 <= k < n ==> f(k) == 0.0
    ensures Sum(n, f) == f(0) + f(1) + f(2)
  {
    SumTruncate(n, 3, f);
    Sum3(f);
  }

  // ---------- null directions of the Jacobians ----------

  function ColV(H: Mat, j: int): V3 {
    V3(At(H, 0, j), At(H, 1, j), At(H, 2, j))
  }

  function RowV(H: Mat, i: int): V3 {
    V3(At(H, i, 0), At(H, i, 1), At(H, i, 2))
  }

  function ColOf(A: M33, j: int): V3 {
    V3(EntryOf(A, 0, j), EntryOf(A, 1, j), EntryOf(A, 2, j))
  }

  /** zᵀ H = 0: the predicted direction is a left null vector. */
  predicate LeftNull(n: nat, z: V3, H: Mat) {
    forall j :: 0 <= j < n ==> Dot(z, ColV(H, j)) == 0.0
  }

  /** H (h,0,0) = 0. */
  predicate RightNull(h: V3, H: Mat) {
    forall i :: 0 <= i < 3 ==> Dot(RowV(H, i), h) == 0.0
  }

  lemma SkewNull(h: V3, k: int)
    ensures Dot(h, ColOf(Skew(h), k)) == 0.0
    ensures Dot(RowOf(Skew(h), k), h) == 0.0
  {
    if k == 0 {
    } else if k == 1 {
    } else if k == 2 {
    } else {
      assert ColOf(Skew(h), k) == ORIGIN && RowOf(Skew(h), k) == ORIGIN;
    }
  }

  lemma DirNull(n: nat, h: V3)
    requires n >= 3
    ensures LeftNull(n, h, DirJacobian(n, h))
    ensures RightNull(h, DirJacobian(n, h))
  {
    hide Dot, EntryOf, At, Skew;
    var H := DirJacobian(n, h);
    forall j | 0 <= j < n ensures Dot(h, ColV(H, j)) == 0.0 {
      SkewNull(h, j);
      assert ColV(H, j) == ColOf(Skew(h), j);
    }
    forall i | 0 <= i < 3 ensures Dot(RowV(H, i), h) == 0.0 {
      SkewNull(h, i);
      RowEntries(Skew(h), i);
      assert RowV(H, i) == RowOf(Skew(h), i);
    }
  }

  lemma RowEntries(A: M33, i: int)
    requires 0 <= i < 3
    ensures V3(EntryOf(A, i, 0), EntryOf(A, i, 1), EntryOf(A, i, 2)) == RowOf(A, i)
  {}

  /** The tangent projector kills the direction it projects along. */
  lemma ProjectorNull(z: V3)
    requires Dot(z, z) == 1.0
    ensures TMulV(Projector(z), z) == ORIGIN
  {
    hide TMulV, Projector;
    ProjectorX(z);
    ProjectorY(z);
    ProjectorZ(z);
  }

  lemma ProjectorX(z: V3)
    requires Dot(z, z) == 1.0
    ensures TMulV(Projector(z), z).x == 0.0
  {
    hide TMulV, Prod;
    TMulVEntries(Projector(z), z);
    Shrinking(z.x, z.y, z.z);
    assert Projector(z).r0.x == 1.0 - z.x * z.x;
    assert Projector(z).r1.x == -(z.y * z.x);
    assert Projector(z).r2.x == -(z.z * z.x);
  }

  lemma ProjectorY(z: V3)
    requires Dot(z, z) == 1.0
    ensures TMulV(Projector(z), z).y == 0.0
  {
    hide TMulV, Prod;
    TMulVEntries(Projector(z), z);
    Shrinking(z.y, z.x, z.z);
    assert Projector(z).r0.y == -(z.x * z.y);
    assert Projector(z).r1.y == 1.0 - z.y * z.y;
    assert Projector(z).r2.y == -(z.z * z.y);
  }

  lemma ProjectorZ(z: V3)
    requires Dot(z, z) == 1.0
    ensures TMulV(Projector(z), z).z == 0.0
  {
    hide TMulV, Prod;
    TMulVEntries(Projector(z), z);
    Shrinking(z.z, z.x, z.y);
    assert Projector(z).r0.z == -(z.x * z.z);
    assert Projector(z).r1.z == -(z.y * z.z);
    assert Projector(z).r2.z == 1.0 - z.z * z.z;
  }

  lemma TMulVEntries(A: M33, v: V3)
    ensures TMulV(A, v).x == Prod(v.x, A.r0.x) + Prod(v.y, A.r1.x) + Prod(v.z, A.r2.x)
    ensures TMulV(A, v).y == Prod(v.x, A.r0.y) + Prod(v.y, A.r1.y) + Prod(v.z, A.r2.y)
    ensures TMulV(A, v).z == Prod(v.x, A.r0.z) + Prod(v.y, A.r1.z) + Prod(v.z, A.r2.z)
  {}

  lemma Shrinking(c: real, a: real, b: real)
    requires c * c + a * a + b * b == 1.0
    ensures Prod(c, 1.0 - c * c) + Prod(a, -(a * c)) + Prod(b, -(b * c)) == 0.0
  {
    var p, q, r := c * c, a * a, b * b;
    assert a * (a * c) == q * c && b * (b * c) == r * c && c * (1.0 - p) == c - p * c;
    assert p * c + q * c + r * c == (p + q + r) * c;
  }

  lemma DotPlus(a: V3, b: V3, c: V3)
    ensures Dot(Plus(a, b), c) == Dot(a, c) + Dot(b, c)
  {}

  lemma DotTimesLeft(k: real, a: V3, c: V3)
    ensures Dot(Times(k, a), c) == k * Dot(a, c)
  {}

  lemma DotOuter(z: V3, a: real, b: real, c: real)
    ensures Dot(z, V3(a, b, c)) == z.x * a + z.y * b + z.z * c
  {}

  /** zᵀ (A c) = (Aᵀ z)ᵀ c. */
  lemma Adjoint(A: M33, z: V3, c: V3)
    ensures Dot(z, MulV(A, c)) == Dot(TMulV(A, z), c)
  {
    hide Dot, Plus, Times;
    DotOuter(z, Dot(A.r0, c), Dot(A.r1, c), Dot(A.r2, c));
    DotPlus(Plus(Times(z.x, A.r0), Times(z.y, A.r1)), Times(z.z, A.r2), c);
    DotPlus(Times(z.x, A.r0), Times(z.y, A.r1), c);
    DotTimesLeft(z.x, A.r0, c);
    DotTimesLeft(z.y, A.r1, c);
    DotTimesLeft(z.z, A.r2, c);
  }

  lemma TMulVColumn(B: M33, r: V3, j: int)
    requires 0 <= j < 3
    ensures Entry(TMulV(B, r), j) == Dot(r, ColOf(B, j))
  {
    if j == 0 {
    } else if j == 1 {
    } else {
    }
  }

  lemma MulMColumn(A: M33, B: M33, j: int)
    requires 0 <= j < 3
    ensures ColOf(MulM(A, B), j) == MulV(A, ColOf(B, j))
  {
    hide TMulV, Dot, Entry;
    TMulVColumn(B, A.r0, j);
    TMulVColumn(B, A.r1, j);
    TMulVColumn(B, A.r2, j);
  }

  lemma MulMRow(A: M33, B: M33, i: int, h: V3)
    requires 0 <= i < 3 && MulV(B, h) == ORIGIN
    ensures Dot(RowOf(MulM(A, B), i), h) == 0.0
  {
    hide Dot, TMulV;
    Adjoint(B, RowOf(A, i), h);
    DotOrigin(RowOf(A, i));
  }

  lemma DotOrigin(v: V3)
    ensures Dot(v, ORIGIN) == 0.0 && Dot(ORIGIN, v) == 0.0
  {}

  lemma DotScale(k: real, z: V3, c: V3)
    requires Dot(z, c) == 0.0
    ensures Dot(z, V3(c.x * k, c.y * k, c.z * k)) == 0.0
  {
    assert Dot(z, V3(c.x * k, c.y * k, c.z * k)) == Dot(z, c) * k;
  }

  lemma WaveNull(n: nat, h: V3, zhat: V3, inv: real)
    requires n >= 3 && Dot(zhat, zhat) == 1.0
    ensures LeftNull(n, zhat, WaveJacobian(n, h, zhat, inv))
    ensures RightNull(h, WaveJacobian(n, h, zhat, inv))
  {
    var H := WaveJacobian(n, h, zhat, inv);
    forall j | 0 <= j < n ensures Dot(zhat, ColV(H, j)) == 0.0 {
      WaveColumnNull(n, h, zhat, inv, j);
    }
    forall i | 0 <= i < 3 ensures Dot(RowV(H, i), h) == 0.0 {
      WaveRowNull(n, h, zhat, inv, i);
    }
  }

  lemma ProjectedNull(zhat: V3, c: V3)
    requires Dot(zhat, zhat) == 1.0
    ensures Dot(zhat, MulV(Projector(zhat), c)) == 0.0
  {
    hide Dot, Projector, MulV, TMulV;
    ProjectorNull(zhat);
    Adjoint(Projector(zhat), zhat, c);
    DotOrigin(c);
  }

  lemma ProjectorColumns(zhat: V3, j: int)
    requires 0 <= j < 3
    ensures exists e: V3 :: ColOf(Projector(zhat), j) == MulV(Projector(zhat), e)
  {
    var e := V3(if j == 0 then 1.0 else 0.0, if j == 1 then 1.0 else 0.0, if j == 2 then 1.0 else 0.0);
    assert ColOf(Projector(zhat), j) == MulV(Projector(zhat), e);
  }

  lemma WaveColumnNull(n: nat, h: V3, zhat: V3, inv: real, j: int)
    requires n >= 3 && Dot(zhat, zhat) == 1.0 && 0 <= j < n
    ensures Dot(zhat, ColV(WaveJacobian(n, h, zhat, inv), j)) == 0.0
  {
    hide Dot, EntryOf, At, Skew, Projector, MulM, MulV;
    var H := WaveJacobian(n, h, zhat, inv);
    if j < 3 {
      var c := ColOf(MulM(Projector(zhat), Skew(h)), j);
      MulMColumn(Projector(zhat), Skew(h), j);
      ProjectedNull(zhat, ColOf(Skew(h), j));
      DotScale(inv, zhat, c);
      assert ColV(H, j) == V3(c.x * inv, c.y * inv, c.z * inv);
    } else if 6 <= j {
      ZeroPastThird(Projector(zhat), j - 6);
      var c := ColOf(Projector(zhat), j - 6);
      if j - 6 < 3 {
        ProjectorColumns(zhat, j - 6);
        var e: V3 :| c == MulV(Projector(zhat), e);
        ProjectedNull(zhat, e);
      } else {
        DotOrigin(zhat);
      }
      DotNegScale(inv, zhat, c, ColV(H, j));
    } else {
      assert ColV(H, j) == ORIGIN;
      DotOrigin(zhat);
    }
  }

  lemma ZeroPastThird(A: M33, j: int)
    ensures j >= 3 ==> ColOf(A, j) == ORIGIN
  {}

  lemma DotNegScale(k: real, z: V3, c: V3, d: V3)
    requires Dot(z, c) == 0.0
    requires d.x == -(c.x * k) && d.y == -(c.y * k) && d.z == -(c.z * k)
    ensures Dot(z, d) == 0.0
  {
    assert Dot(z, V3(c.x * k, c.y * k, c.z * k)) == Dot(z, c) * k;
  }

  lemma WaveRowNull(n: nat, h: V3, zhat: V3, inv: real, i: int)
    requires n >= 3 && 0 <= i < 3
    ensures Dot(RowV(WaveJacobian(n, h, zhat, inv), i), h) == 0.0
  {
    hide Dot, EntryOf, At, Skew, Projector, MulM, MulV;
    var H := WaveJacobian(n, h, zhat, inv);
    var B := MulM(Projector(zhat), Skew(h));
    var r := RowOf(B, i);
    SkewMul(h);
    MulMRow(Projector(zhat), Skew(h), i, h);
    RowEntries(B, i);
    DotSwap(r, h);
    DotScale(inv, h, r);
    assert RowV(H, i) == V3(r.x * inv, r.y * inv, r.z * inv);
    DotSwap(h, RowV(H, i));
  }

  lemma DotSwap(a: V3, b: V3)
    ensures Dot(a, b) == Dot(b, a)
  {}

  lemma SkewMul(h: V3)
    ensures MulV(Skew(h), h) == ORIGIN
  {}

  lemma UnitTimes(lib: Libm, v: V3)
    requires lib.Valid() && Norm(lib, v) >= 0.5
    ensures Dot(Times(1.0 / Norm(lib, v), v), Times(1.0 / Norm(lib, v), v)) == 1.0
  {
    var n := Norm(lib, v);
    NormLaw(lib, v);
    UnitOver(v, n);
    ScaledIsQuotient(v, n);
  }

  lemma ScaledIsQuotient(v: V3, n: real)
    requires n != 0.0
    ensures Times(1.0 / n, v) == V3(v.x / n, v.y / n, v.z / n)
  {}

  /** Both Jacobians: the prediction is a left null vector, the vertical a right one. */
  lemma PredictedNull(lib: Libm, n: nat, h: V3, aw: Option<V3>)
    requires lib.Valid() && n >= 3 && Dot(h, h) == 1.0
    ensures var pr := Predicted(lib, n, h, aw);
            && Dot(pr.zhat, pr.zhat) == 1.0
            && LeftNull(n, pr.zhat, pr.H)
            && RightNull(h, pr.H)
  {
    hide DirJacobian, WaveJacobian, Dot, Norm, Times, Minus, LeftNull, RightNull, Libm.Valid;
    DirNull(n, h);
    if aw.Some? && Norm(lib, Minus(h, aw.value)) >= 0.5 {
      var v := Minus(h, aw.value);
      UnitTimes(lib, v);
      WaveNull(n, h, Times(1.0 / Norm(lib, v), v), 1.0 / Norm(lib, v));
    }
  }

  // ---------- the predicted direction is an eigenvector of S ----------

  lemma LeftNullT(n: nat, z: V3, H: Mat)
    requires LeftNull(n, z, H)
    ensures Mul(n, 3, 1, T(3, n, H), Col(z)) == Zero(n, 1)
  {
    hide At, Entry;
    var L := Mul(n, 3, 1, T(3, n, H), Col(z));
    forall j, c | 0 <= j < n && 0 <= c < 1 ensures At(L, j, c) == At(Zero(n, 1), j, c) {
      MulAt(n, 3, 1, T(3, n, H), Col(z), j, 0);
      Sum3(k => At(T(3, n, H), j, k) * At(Col(z), k, 0));
      TAt(3, n, H, j, 0);
      TAt(3, n, H, j, 1);
      TAt(3, n, H, j, 2);
      ColAt(z);
      assert Dot(z, ColV(H, j)) == 0.0;
      DotSwap(z, ColV(H, j));
    }
    MatEq(L, Zero(n, 1), n, 1);
  }

  lemma ColAt(z: V3)
    ensures At(Col(z), 0, 0) == z.x && At(Col(z), 1, 0) == z.y && At(Col(z), 2, 0) == z.z
  {}

  lemma MulZeroCol(r: nat, n: nat, A: Mat)
    ensures Mul(r, n, 1, A, Zero(n, 1)) == Zero(r, 1)
  {
    hide At;
    forall i, c | 0 <= i < r && 0 <= c < 1 ensures At(Mul(r, n, 1, A, Zero(n, 1)), i, c) == At(Zero(r, 1), i, c) {
      MulZero(r, n, 1, A, Zero(n, 1), i, 0);
    }
    MatEq(Mul(r, n, 1, A, Zero(n, 1)), Zero(r, 1), r, 1);
  }

  lemma AddZeroCol(r: nat, A: Mat)
    requires IsMat(A, r, 1)
    ensures Add(r, 1, A, Zero(r, 1)) == A
  {
    MatEq(Add(r, 1, A, Zero(r, 1)), A, r, 1);
  }

  /** S ẑ = R ẑ: along the predicted direction the innovation is measurement noise alone. */
  lemma InnovEigen(n: nat, P: Mat, H: Mat, Rn: Mat, z: V3, R: real)
    requires LeftNull(n, z, H) && Mul(3, 3, 1, Rn, Col(z)) == Scale(3, 1, R, Col(z))
    ensures Mul(3, 3, 1, InnovCov(n, 3, P, H, Rn), Col(z)) == Scale(3, 1, R, Col(z))
  {
    hide Mul, T, Zero, Add, Scale;
    var B := Mul(3, n, 3, H, PHt(n, 3, P, H));
    MulAddLeft(3, 3, 1, Rn, B, Col(z));
    MulAssoc(3, n, 3, 1, H, PHt(n, 3, P, H), Col(z));
    MulAssoc(n, n, 3, 1, P, T(3, n, H), Col(z));
    LeftNullT(n, z, H);
    MulZeroCol(n, n, P);
    MulZeroCol(3, n, H);
    AddZeroCol(3, Scale(3, 1, R, Col(z)));
  }

  lemma IsotropicEigen(R: real, z: V3)
    ensures Mul(3, 3, 1, Isotropic(3, R), Col(z)) == Scale(3, 1, R, Col(z))
  {
    hide At, Entry;
    var L := Mul(3, 3, 1, Isotropic(3, R), Col(z));
    forall i, c | 0 <= i < 3 && 0 <= c < 1 ensures At(L, i, c) == At(Scale(3, 1, R, Col(z)), i, c) {
      MulAt(3, 3, 1, Isotropic(3, R), Col(z), i, 0);
      forall k | 0 <= k < 3 && k != i ensures At(Isotropic(3, R), i, k) * At(Col(z), k, 0) == 0.0 {
        assert At(Isotropic(3, R), i, k) == 0.0;
      }
      SumSingle(3, i, k => At(Isotropic(3, R), i, k) * At(Col(z), k, 0));
      assert At(Isotropic(3, R), i, i) == R;
    }
    MatEq(L, Scale(3, 1, R, Col(z)), 3, 1);
  }

  /** A rank-one term tangent to z leaves z an eigenvector. */
  lemma RankOneEigen(R: real, sig2: real, u: V3, z: V3)
    requires Dot(u, z) == 0.0
    ensures Mul(3, 3, 1, RankOneNoise(R, sig2, u), Col(z)) == Scale(3, 1, R, Col(z))
  {
    hide Mul, T, Zero, Add, Scale, RankOneNoise, Isotropic;
    var A := Mul(3, 1, 1, Col(u), Isotropic(1, sig2));
    RankOneIsSum(R, sig2, u);
    MulAddLeft(3, 3, 1, Isotropic(3, R), Mul(3, 1, 3, A, T(3, 1, Col(u))), Col(z));
    IsotropicEigen(R, z);
    MulAssoc(3, 1, 3, 1, A, T(3, 1, Col(u)), Col(z));
    TangentProduct(u, z);
    MulZeroCol(3, 1, A);
    AddZeroCol(3, Scale(3, 1, R, Col(z)));
  }

  lemma TangentProduct(u: V3, z: V3)
    requires Dot(u, z) == 0.0
    ensures Mul(1, 3, 1, T(3, 1, Col(u)), Col(z)) == Zero(1, 1)
  {
    hide At;
    var L := Mul(1, 3, 1, T(3, 1, Col(u)), Col(z));
    forall i, c | 0 <= i < 1 && 0 <= c < 1 ensures At(L, i, c) == At(Zero(1, 1), i, c) {
      MulAt(1, 3, 1, T(3, 1, Col(u)), Col(z), 0, 0);
      Sum3(k => At(T(3, 1, Col(u)), 0, k) * At(Col(z), k, 0));
      TAt(3, 1, Col(u), 0, 0);
      TAt(3, 1, Col(u), 0, 1);
      TAt(3, 1, Col(u), 0, 2);
      ColAt(u);
      ColAt(z);
    }
    MatEq(L, Zero(1, 1), 1, 1);
  }

  // ---------- two degrees of freedom ----------

  lemma MulEntries(A: M33, v: V3)
    ensures Mul(3, 3, 1, FromM33(A), Col(v)) == Col(MulV(A, v))
  {
    hide At, Entry;
    var L := Mul(3, 3, 1, FromM33(A), Col(v));
    forall i, c | 0 <= i < 3 && 0 <= c < 1 ensures At(L, i, c) == At(Col(MulV(A, v)), i, c) {
      MulAt(3, 3, 1, FromM33(A), Col(v), i, 0);
      Sum3(k => At(FromM33(A), i, k) * At(Col(v), k, 0));
      ColAt(v);
      ColAt(MulV(A, v));
      RowEntries(A, i);
      assert At(FromM33(A), i, 0) == EntryOf(A, i, 0);
      assert At(FromM33(A), i, 1) == EntryOf(A, i, 1);
      assert At(FromM33(A), i, 2) == EntryOf(A, i, 2);
      assert Dot(RowOf(A, i), v) == EntryOf(A, i, 0) * v.x + EntryOf(A, i, 1) * v.y + EntryOf(A, i, 2) * v.z;
    }
    MatEq(L, Col(MulV(A, v)), 3, 1);
  }

  lemma FromTo(A: Mat)
    requires IsMat(A, 3, 3)
    ensures FromM33(ToM33(A)) == A
  {
    forall i, j | 0 <= i < 3 && 0 <= j < 3 ensures At(FromM33(ToM33(A)), i, j) == At(A, i, j) {}
    MatEq(FromM33(ToM33(A)), A, 3, 3);
  }

  lemma ColInjective(a: V3, b: V3)
    requires Col(a) == Col(b)
    ensures a == b
  {
    ColAt(a);
    ColAt(b);
  }

  lemma ScaleCol(k: real, v: V3)
    ensures Scale(3, 1, k, Col(v)) == Col(Times(k, v))
  {
    hide At;
    forall i, c | 0 <= i < 3 && 0 <= c < 1 ensures At(Scale(3, 1, k, Col(v)), i, c) == At(Col(Times(k, v)), i, c) {}
    MatEq(Scale(3, 1, k, Col(v)), Col(Times(k, v)), 3, 1);
  }

  lemma EigenV3(S: Mat, z: V3, R: real)
    requires IsMat(S, 3, 3) && Mul(3, 3, 1, S, Col(z)) == Scale(3, 1, R, Col(z))
    ensures MulV(ToM33(S), z) == Times(R, z)
  {
    hide Mul, FromM33, ToM33, Scale, MulV, Times, Col;
    FromTo(S);
    MulEntries(ToM33(S), z);
    ScaleCol(R, z);
    ColInjective(MulV(ToM33(S), z), Times(R, z));
  }

  /** Whenever S is inverted, R ẑᵀ S⁻¹ ẑ = 1: of the three expected squared components one,
      and exactly one, is accounted for by the direction that carries no noise. */
  lemma RadialShare(S: Mat, z: V3, R: real)
    requires IsMat(S, 3, 3) && Inv(ToM33(S)).Some? && Symmetric(3, S)
    requires Mul(3, 3, 1, S, Col(z)) == Scale(3, 1, R, Col(z)) && Dot(z, z) == 1.0
    ensures R * Distance(z, Inv(ToM33(S)).value) == 1.0
  {
    hide Mul, Scale, Inv, Dot, MulV, ToM33;
    var A := ToM33(S);
    var B := Inv(A).value;
    EigenV3(S, z, R);
    InvRight(A);
    MulMMulV(A, B, z);
    var y := MulV(B, z);
    assert MulV(A, y) == z by { IdentityMul(z); }
    SymmetricM33(S);
    SelfAdjoint(A, z, y);
    TimesDot(R, z, y);
  }

  lemma MulMMulV(A: M33, B: M33, z: V3)
    ensures MulV(MulM(A, B), z) == MulV(A, MulV(B, z))
  {
    hide Dot, TMulV;
    Adjoint(B, A.r0, z);
    Adjoint(B, A.r1, z);
    Adjoint(B, A.r2, z);
  }

  lemma IdentityMul(z: V3)
    ensures MulV(IDENTITY, z) == z
  {}

  lemma SymmetricM33(S: Mat)
    requires Symmetric(3, S)
    ensures Transpose(ToM33(S)) == ToM33(S)
  {}

  lemma SelfAdjoint(A: M33, z: V3, y: V3)
    requires Transpose(A) == A
    ensures Dot(z, MulV(A, y)) == Dot(MulV(A, z), y)
  {
    hide Dot, MulV, TMulV;
    Adjoint(A, z, y);
    TMulVTranspose(A, z);
  }

  lemma TimesDot(k: real, z: V3, y: V3)
    ensures Dot(Times(k, z), y) == k * Dot(z, y)
  {}

  // ---------- S is a covariance ----------

  lemma InnovCovForm(n: nat, m: nat, P: Mat, H: Mat, Rn: Mat)
    ensures InnovCov(n, m, P, H, Rn) == Add(m, m, Rn, Congruence(m, n, H, P))
  {
    hide Mul, T, Add;
    MulAssoc(m, n, n, m, H, P, T(m, n, H));
  }

  lemma InnovCovariance(n: nat, m: nat, P: Mat, H: Mat, Rn: Mat)
    requires Covariance(n, P) && Covariance(m, Rn) && IsMat(H, m, n)
    ensures Covariance(m, InnovCov(n, m, P, H, Rn))
  {
    hide Covariance, Congruence, Add, InnovCov;
    InnovCovForm(n, m, P, H, Rn);
    CongruenceCovariance(m, n, H, P);
    AddCovariance(m, Rn, Congruence(m, n, H, P));
  }

  lemma DotQuad(S: Mat, y: V3)
    requires IsMat(S, 3, 3)
    ensures Dot(y, MulV(ToM33(S), y)) == Quad(3, S, Col(y))
  {
    hide Mul, MulV, ToM33, FromM33, At, T, Col;
    FromTo(S);
    MulEntries(ToM33(S), y);
    ColDot(y, MulV(ToM33(S), y));
  }

  lemma ColDot(a: V3, b: V3)
    ensures At(Mul(1, 3, 1, T(3, 1, Col(a)), Col(b)), 0, 0) == Dot(a, b)
  {
    hide At;
    MulAt(1, 3, 1, T(3, 1, Col(a)), Col(b), 0, 0);
    Sum3(k => At(T(3, 1, Col(a)), 0, k) * At(Col(b), k, 0));
    TAt(3, 1, Col(a), 0, 0);
    TAt(3, 1, Col(a), 0, 1);
    TAt(3, 1, Col(a), 0, 2);
    ColAt(a);
    ColAt(b);
  }

  /** The squared innovation distance the gate compares is never negative. */
  lemma DistanceNonneg(S: Mat, nu: V3)
    requires Covariance(3, S) && Inv(ToM33(S)).Some?
    ensures Distance(nu, Inv(ToM33(S)).value) >= 0.0
  {
    hide Inv, Dot, MulV, ToM33, Quad;
    var A := ToM33(S);
    var B := Inv(A).value;
    var y := MulV(B, nu);
    InvRight(A);
    MulMMulV(A, B, nu);
    IdentityMul(nu);
    DotQuad(S, y);
    DotSwap(y, nu);
    assert Quad(3, S, Col(y)) >= 0.0;
  }

  // ---------- the Huber cap ----------

  lemma DistanceScaled(w: real, nu: V3, B: M33)
    ensures Distance(Times(w, nu), B) == w * w * Distance(nu, B)
  {
    hide Dot;
    MulVTimes(w, nu, B);
    DotTimesLeft(w, nu, MulV(B, Times(w, nu)));
    DotSwap(nu, Times(w, MulV(B, nu)));
    DotTimesLeft(w, MulV(B, nu), nu);
    DotSwap(nu, MulV(B, nu));
  }

  lemma MulVTimes(w: real, v: V3, B: M33)
    ensures MulV(B, Times(w, v)) == Times(w, MulV(B, v))
  {
    hide Dot;
    DotSwap(B.r0, Times(w, v));
    DotSwap(B.r1, Times(w, v));
    DotSwap(B.r2, Times(w, v));
    DotTimesLeft(w, v, B.r0);
    DotTimesLeft(w, v, B.r1);
    DotTimesLeft(w, v, B.r2);
    DotSwap(B.r0, v);
    DotSwap(B.r1, v);
    DotSwap(B.r2, v);
  }

  /** The weighted innovation sits exactly at the gate when it lay beyond it, and where it was otherwise. */
  lemma HuberCaps(lib: Libm, gate: real, nu: V3, B: M33)
    requires lib.Valid() && gate > 0.0
    ensures var w := HuberWeight(lib, gate, Distance(nu, B));
            && 0.0 < w <= 1.0
            && Distance(Times(w, nu), B) == if Distance(nu, B) > gate then gate else Distance(nu, B)
  {
    hide Distance;
    var d2 := Distance(nu, B);
    var w := HuberWeight(lib, gate, d2);
    DistanceScaled(w, nu, B);
    if d2 > gate { HuberRoot(gate, d2, gate / d2, w); }
  }

  lemma HuberRoot(gate: real, d2: real, ratio: real, w: real)
    requires 0.0 < gate < d2 && ratio == gate / d2 && w >= 0.0 && w * w == ratio
    ensures 0.0 < w <= 1.0 && w * w * d2 == gate
  {
    assert ratio * d2 == gate;
    OneMinus(ratio, d2, gate);
    FactorPositive(1.0 - ratio, d2);
    FactorPositive(ratio, d2);
    assert (1.0 - w) * (1.0 + w) > 0.0;
    FactorPositive(1.0 - w, 1.0 + w);
  }

  lemma OneMinus(r: real, d: real, g: real)
    requires r * d == g
    ensures (1.0 - r) * d == d - g
  {}

  lemma FactorPositive(a: real, b: real)
    requires b > 0.0 && a * b > 0.0
    ensures a > 0.0
  {}

  // ---------- the protected axis ----------

  lemma ProtectedColumn(k: V3, h: V3)
    requires Dot(h, h) == 1.0
    ensures Dot(Minus(k, Times(Dot(h, k), h)), h) == 0.0
  {
    hide Dot;
    var d := Dot(h, k);
    DotMinus(k, Times(d, h), h);
    DotTimesLeft(d, h, h);
    DotSwap(k, h);
  }

  lemma DotMinus(a: V3, b: V3, c: V3)
    ensures Dot(Minus(a, b), c) == Dot(a, c) - Dot(b, c)
  {}

  lemma ProtectColumn(n: nat, K: Mat, h: V3, j: nat)
    requires n >= 3 && j < 3
    ensures ColV(Protect(n, K, h), j) == Minus(ColV(K, j), Times(Dot(h, ColV(K, j)), h))
  {
    hide At;
    var K' := Protect(n, K, h);
    var d := Dot(h, ColV(K, j));
    ProtectEntry(At(K, 0, j), h.x, d);
    ProtectEntry(At(K, 1, j), h.y, d);
    ProtectEntry(At(K, 2, j), h.z, d);
    assert At(K', 0, j) == At(K, 0, j) - Entry(h, 0) * d;
    assert At(K', 1, j) == At(K, 1, j) - Entry(h, 1) * d;
    assert At(K', 2, j) == At(K, 2, j) - Entry(h, 2) * d;
  }

  lemma ProtectEntry(k: real, p: real, d: real)
    ensures k - p * d == k - d * p
  {}

  /** Kᵀ (h,0,0) = 0 once K is protected along h. */
  lemma ProtectNull(n: nat, K: Mat, h: V3)
    requires n >= 3 && Dot(h, h) == 1.0
    ensures Mul(3, n, 1, T(n, 3, Protect(n, K, h)), Ext(n, h)) == Zero(3, 1)
  {
    hide At, Dot, Protect;
    var K' := Protect(n, K, h);
    var L := Mul(3, n, 1, T(n, 3, K'), Ext(n, h));
    forall j, c | 0 <= j < 3 && 0 <= c < 1 ensures At(L, j, c) == At(Zero(3, 1), j, c) {
      MulAt(3, n, 1, T(n, 3, K'), Ext(n, h), j, 0);
      ExtDot(n, T(n, 3, K'), h, 3, j);
      TAt(n, 3, K', j, 0);
      TAt(n, 3, K', j, 1);
      TAt(n, 3, K', j, 2);
      ProtectColumn(n, K, h, j);
      ProtectedColumn(ColV(K, j), h);
    }
    MatEq(L, Zero(3, 1), 3, 1);
  }

  /** A row times (h,0,0) is its first three entries dotted with h. */
  lemma ExtDot(n: nat, A: Mat, h: V3, r: nat, i: nat)
    requires n >= 3 && i < r
    ensures Sum(n, k => At(A, i, k) * At(Ext(n, h), k, 0)) == Dot(RowV(A, i), h)
  {
    hide At;
    var f := k => At(A, i, k) * At(Ext(n, h), k, 0);
    forall k | 0 <= k < n ensures At(Ext(n, h), k, 0) == Entry(h, k) {}
    SumFirst3(n, f);
  }

  lemma ResidualT(n: nat, m: nat, K: Mat, H: Mat, x: Mat)
    requires IsMat(x, n, 1) && IsMat(K, n, m) && Mul(m, n, 1, T(n, m, K), x) == Zero(m, 1)
    ensures Mul(n, n, 1, T(n, n, Residual(n, m, K, H)), x) == x
  {
    hide At, Mul, Residual;
    var KH := Mul(n, m, n, K, H);
    var L := Mul(n, n, 1, T(n, n, Residual(n, m, K, H)), x);
    TransposedProduct(n, m, K, H, x);
    forall i, c | 0 <= i < n && 0 <= c < 1 ensures At(L, i, c) == At(x, i, c) {
      ResidualTAt(n, m, K, H, x, i);
    }
    MatEq(L, x, n, 1);
  }

  lemma TransposedProduct(n: nat, m: nat, K: Mat, H: Mat, x: Mat)
    requires Mul(m, n, 1, T(n, m, K), x) == Zero(m, 1)
    ensures Mul(n, n, 1, T(n, n, Mul(n, m, n, K, H)), x) == Zero(n, 1)
  {
    hide Mul, T, Zero;
    TMul(n, m, n, K, H);
    MulAssoc(n, m, n, 1, T(m, n, H), T(n, m, K), x);
    MulZeroCol(n, m, T(m, n, H));
  }

  lemma ResidualTAt(n: nat, m: nat, K: Mat, H: Mat, x: Mat, i: nat)
    requires i < n && Mul(n, n, 1, T(n, n, Mul(n, m, n, K, H)), x) == Zero(n, 1)
    ensures At(Mul(n, n, 1, T(n, n, Residual(n, m, K, H)), x), i, 0) == At(x, i, 0)
  {
    hide At, Mul;
    var KH := Mul(n, m, n, K, H);
    var R := Residual(n, m, K, H);
    var keep := k => At(Eye(n), i, k) * At(x, k, 0);
    var lost := k => At(T(n, n, KH), i, k) * At(x, k, 0);
    var whole := k => At(T(n, n, R), i, k) * At(x, k, 0);
    MulAt(n, n, 1, T(n, n, R), x, i, 0);
    MulAt(n, n, 1, T(n, n, KH), x, i, 0);
    assert At(Zero(n, 1), i, 0) == 0.0;
    forall k | 0 <= k < n ensures whole(k) + lost(k) == keep(k) {
      TAt(n, n, R, i, k);
      TAt(n, n, KH, i, k);
      ResidualEntry(n, m, K, H, k, i);
      SplitProduct(At(R, k, i), At(KH, k, i), At(x, k, 0), At(Eye(n), i, k));
    }
    SumAdd(n, whole, lost, keep);
    forall k | 0 <= k < n && k != i ensures keep(k) == 0.0 {
      assert At(Eye(n), i, k) == 0.0;
    }
    SumSingle(n, i, keep);
    assert At(Eye(n), i, i) == 1.0;
  }

  lemma SplitProduct(a: real, b: real, x: real, e: real)
    requires a + b == e
    ensures a * x + b * x == e * x
  {}

  lemma ResidualEntry(n: nat, m: nat, K: Mat, H: Mat, k: nat, i: nat)
    requires k < n && i < n
    ensures At(Residual(n, m, K, H), k, i) + At(Mul(n, m, n, K, H), k, i) == At(Eye(n), i, k)
  {
    hide Mul, At;
    assert At(Eye(n), i, k) == if i == k then 1.0 else 0.0;
  }

  lemma QuadZeroCol(m: nat, Rn: Mat)
    ensures Quad(m, Rn, Zero(m, 1)) == 0.0
  {
    hide Mul, At, Zero;
    MulZeroCol(m, m, Rn);
    MulZeroCol(1, m, T(m, 1, Zero(m, 1)));
    ZeroAt();
  }

  lemma ZeroAt()
    ensures At(Zero(1, 1), 0, 0) == 0.0
  {}

  /** A gain with nothing along x leaves the variance along x as it was. */
  lemma JosephKeeps(n: nat, m: nat, K: Mat, H: Mat, P: Mat, Rn: Mat, x: Mat)
    requires IsMat(x, n, 1) && IsMat(K, n, m) && Mul(m, n, 1, T(n, m, K), x) == Zero(m, 1)
    ensures Quad(n, Joseph(n, m, Residual(n, m, K, H), P, K, Rn), x) == Quad(n, P, x)
  {
    hide Mul, T, Zero, Add, Congruence, Residual, Quad;
    var A := Residual(n, m, K, H);
    ResidualMat(n, m, K, H);
    QuadAdd(n, Congruence(n, n, A, P), Congruence(n, m, K, Rn), x);
    QuadCongruence(n, n, A, P, x);
    QuadCongruence(n, m, K, Rn, x);
    ResidualT(n, m, K, H, x);
    QuadZeroCol(m, Rn);
  }

  lemma ResidualMat(n: nat, m: nat, K: Mat, H: Mat)
    ensures IsMat(Residual(n, m, K, H), n, n)
  {}

  /** A protected gain turns the attitude about no part of h. */
  lemma NoTurnAbout(n: nat, K: Mat, h: V3, nu: Mat)
    requires n >= 3 && IsMat(K, n, 3) && Mul(3, n, 1, T(n, 3, K), Ext(n, h)) == Zero(3, 1)
    ensures Dot(Sub3(Mul(n, 3, 1, K, nu), 0), h) == 0.0
  {
    hide Mul, T, Zero, At, Ext;
    var dx := Mul(n, 3, 1, K, nu);
    var x := Ext(n, h);
    TMul(3, n, 1, T(n, 3, K), x);
    TT(n, 3, K);
    MulAssoc(1, n, 3, 1, T(n, 1, x), K, nu);
    ZeroRowMul(nu);
    assert Mul(1, n, 1, T(n, 1, x), dx) == Zero(1, 1);
    RowTimes(n, h, dx);
    ZeroAt();
  }

  lemma ZeroRowMul(nu: Mat)
    ensures Mul(1, 3, 1, T(3, 1, Zero(3, 1)), nu) == Zero(1, 1)
  {
    hide At;
    var L := Mul(1, 3, 1, T(3, 1, Zero(3, 1)), nu);
    forall i, c | 0 <= i < 1 && 0 <= c < 1 ensures At(L, i, c) == At(Zero(1, 1), i, c) {
      forall k | 0 <= k < 3 ensures At(T(3, 1, Zero(3, 1)), 0, k) == 0.0 {
        TAt(3, 1, Zero(3, 1), 0, k);
        assert At(Zero(3, 1), k, 0) == 0.0;
      }
      MulZero(1, 3, 1, T(3, 1, Zero(3, 1)), nu, 0, 0);
    }
    MatEq(L, Zero(1, 1), 1, 1);
  }

  lemma RowTimes(n: nat, h: V3, dx: Mat)
    requires n >= 3
    ensures At(Mul(1, n, 1, T(n, 1, Ext(n, h)), dx), 0, 0) == Dot(Sub3(dx, 0), h)
  {
    hide At;
    var f := k => At(T(n, 1, Ext(n, h)), 0, k) * At(dx, k, 0);
    MulAt(1, n, 1, T(n, 1, Ext(n, h)), dx, 0, 0);
    forall k | 0 <= k < n ensures At(T(n, 1, Ext(n, h)), 0, k) == Entry(h, k) {
      TAt(n, 1, Ext(n, h), 0, k);
    }
    SumExt(n, f, k => At(T(n, 1, Ext(n, h)), 0, k) * At(dx, k, 0));
    SumFirst3(n, f);
  }

  // ---------- the accelerometer update as a whole ----------

  /** The state after turning by d and contracting the covariance to J before the reset. */
  ghost predicate TurnedBy(lib: Libm, n: nat, s: State, s': State, d: V3, J: Mat) {
    && s'.q == QNormalize(lib, QMul(s.q, QFromRotvec(lib, d)))
    && s'.P == Congruence(n, n, ResetJac(n, d), J)
  }

  lemma CorrectTurns(lib: Libm, n: nat, m: nat, s: State, K: Mat, H: Mat, nu: Mat, Rn: Mat)
    requires Covariance(n, s.P) && Covariance(m, Rn) && IsMat(K, n, m)
    ensures TurnedBy(lib, n, s, Correct(lib, n, m, s, K, H, nu, Rn), Sub3(Mul(n, m, 1, K, nu), 0),
                     Joseph(n, m, Residual(n, m, K, H), s.P, K, Rn))
  {
    hide Mul, Joseph, QNormalize, QMul, QFromRotvec, ResetJac, Symmetrize, Residual, Congruence, Covariance, Sub3;
    var G := ResetJac(n, Sub3(Mul(n, m, 1, K, nu), 0));
    ResidualMat(n, m, K, H);
    JosephCovariance(n, m, Mul(n, n, n, G, Residual(n, m, K, H)), s.P, Mul(n, n, m, G, K), Rn);
    ResetFolded(n, m, G, Residual(n, m, K, H), s.P, K, Rn);
  }

  lemma ProtectMat(n: nat, K: Mat, h: V3)
    ensures IsMat(Protect(n, K, h), n, 3)
  {}

  /** The arguments of one eskf_update. */
  datatype Update = Update(h: V3, z: V3, Rn: Mat, ch: Channel, alpha: real, aw: Option<V3>, protect: Option<V3>)

  function Updated(lib: Libm, n: nat, s: State, u: Update): (State, Outcome) {
    EskfUpdate(lib, n, s, u.h, u.z, u.Rn, u.ch, u.alpha, u.aw, u.protect)
  }

  /** The gain an update uses, once S is inverted and its axis protected. */
  function GainOf(lib: Libm, n: nat, s: State, u: Update): Mat
    requires InnovInverse(n, s.P, Predicted(lib, n, u.h, u.aw).H, u.Rn).Some?
  {
    var H := Predicted(lib, n, u.h, u.aw).H;
    GainUsed(n, Gain(n, s.P, H, InnovInverse(n, s.P, H, u.Rn).value), u.protect)
  }

  /** The innovation it applies: weighted when beyond the gate. */
  function WeightedInnov(lib: Libm, n: nat, s: State, u: Update): Mat
    requires Updated(lib, n, s, u).1 == Applied
  {
    var pr := Predicted(lib, n, u.h, u.aw);
    var nu := Minus(u.z, pr.zhat);
    var d2 := Distance(nu, InnovInverse(n, s.P, pr.H, u.Rn).value);
    Col(Times(Judge(lib, s.aux, u.ch, u.alpha, ACCEL_CHI2_GATE, d2, 2.0).weight.value, nu))
  }

  /** δθ: the attitude part of K ν. */
  function TurnOf(lib: Libm, n: nat, s: State, u: Update): V3
    requires Updated(lib, n, s, u).1 == Applied
  {
    Sub3(Mul(n, 3, 1, GainOf(lib, n, s, u), WeightedInnov(lib, n, s, u)), 0)
  }

  /** P′: the Joseph form with that gain, before the reset Jacobian. */
  function JosephOf(lib: Libm, n: nat, s: State, u: Update): Mat
    requires Updated(lib, n, s, u).1 == Applied
  {
    var K := GainOf(lib, n, s, u);
    Joseph(n, 3, Residual(n, 3, K, Predicted(lib, n, u.h, u.aw).H), s.P, K, u.Rn)
  }

  /** An accepted update turns q by δθ and takes P to G P′ Gᵀ. */
  lemma UpdateTurns(lib: Libm, n: nat, s: State, u: Update)
    requires Good(lib, n, s) && Covariance(3, u.Rn) && Updated(lib, n, s, u).1 == Applied
    requires IsMat(GainOf(lib, n, s, u), n, 3)
    ensures TurnedBy(lib, n, s, Updated(lib, n, s, u).0, TurnOf(lib, n, s, u), JosephOf(lib, n, s, u))
  {
    hide Correct, Covariance, Gain, Protect, Judge, InnovInverse, Predicted, Distance, Col, Times, Residual,
         Joseph, Mul, T, TurnedBy, Sub3, Unit, Supported, Libm.Valid, GainUsed;
    var pr := Predicted(lib, n, u.h, u.aw);
    var K, cnu := GainOf(lib, n, s, u), WeightedInnov(lib, n, s, u);
    var v := Judge(lib, s.aux, u.ch, u.alpha, ACCEL_CHI2_GATE,
                   Distance(Minus(u.z, pr.zhat), InnovInverse(n, s.P, pr.H, u.Rn).value), 2.0);
    CorrectTurns(lib, n, 3, s.(aux := v.aux), K, pr.H, cnu, u.Rn);
    TurnedSame(lib, n, s, v.aux, Updated(lib, n, s, u).0, TurnOf(lib, n, s, u), JosephOf(lib, n, s, u));
  }

  /** With the prediction's own vertical protected, an accepted vector update makes no turn about it
      and leaves the variance about it as it was, before the reset. */
  lemma ProtectedUpdate(lib: Libm, n: nat, s: State, u: Update)
    requires Good(lib, n, s) && Covariance(3, u.Rn) && Dot(u.h, u.h) == 1.0 && u.protect == Some(u.h)
    requires Updated(lib, n, s, u).1 == Applied
    ensures TurnedBy(lib, n, s, Updated(lib, n, s, u).0, TurnOf(lib, n, s, u), JosephOf(lib, n, s, u))
    ensures Dot(TurnOf(lib, n, s, u), u.h) == 0.0
    ensures Quad(n, JosephOf(lib, n, s, u), Ext(n, u.h)) == Quad(n, s.P, Ext(n, u.h))
  {
    hide Correct, Covariance, Gain, Protect, Judge, InnovInverse, Predicted, Distance, Col, Times, Residual,
         Joseph, Quad, Mul, T, Ext, Dot, TurnedBy, Sub3, Unit, Supported, Libm.Valid, WeightedInnov;
    var H := Predicted(lib, n, u.h, u.aw).H;
    var G := Gain(n, s.P, H, InnovInverse(n, s.P, H, u.Rn).value);
    ProtectMat(n, G, u.h);
    assert GainOf(lib, n, s, u) == Protect(n, G, u.h);
    UpdateTurns(lib, n, s, u);
    ProtectNull(n, G, u.h);
    NoTurnAbout(n, GainOf(lib, n, s, u), u.h, WeightedInnov(lib, n, s, u));
    JosephKeeps(n, 3, GainOf(lib, n, s, u), H, s.P, u.Rn, Ext(n, u.h));
  }

  lemma TurnedSame(lib: Libm, n: nat, s: State, a: Aux, s': State, d: V3, J: Mat)
    requires TurnedBy(lib, n, s.(aux := a), s', d, J)
    ensures TurnedBy(lib, n, s, s', d, J)
  {}

  /** The update mekf_update_accel makes of a usable sample. */
  function AccelUpdate(lib: Libm, s: State, m: ImuSample): Update
    requires AccelUsable(lib, s, m)
  {
    var acc := SpecificForce(s, m);
    var a := AccelAux(lib, s, m);
    var h := QToR(s.q).r2;
    AccelNonzero(lib, s, m);
    Update(h, GravityDirection(acc, Norm(lib, acc)), Isotropic(3, AccelVariance(a)), AccelChannel,
           EmaAlpha(lib, AccelBookkeeping(lib, s.aux, Norm(lib, acc) / G_MS2).health.dtAccum, GATE_TAU_S),
           if a.tun.waveEnabled then Some(s.waveAcc) else None, Some(h))
  }

  /** mekf_update_accel either leaves attitude and covariance alone, or turns the attitude by its own δθ, at right
      angles to the vertical, and its Joseph form leaves the heading variance as it was. */
  lemma AccelKeepsHeading(lib: Libm, n: nat, s: State, m: ImuSample)
    requires Good(lib, n, s)
    ensures var s' := UpdateAccel(lib, n, s, m);
            var down := QToR(s.q).r2;
            if s.aux.initialized && AccelUsable(lib, s, m)
               && Updated(lib, n, s.(aux := AccelAux(lib, s, m)), AccelUpdate(lib, s, m)).1 == Applied
            then
              var s0, u := s.(aux := AccelAux(lib, s, m)), AccelUpdate(lib, s, m);
              && TurnedBy(lib, n, s, s', TurnOf(lib, n, s0, u), JosephOf(lib, n, s0, u))
              && Dot(TurnOf(lib, n, s0, u), down) == 0.0
              && Quad(n, JosephOf(lib, n, s0, u), Ext(n, down)) == Quad(n, s.P, Ext(n, down))
            else s'.q == s.q && s'.P == s.P
  {
    hide GoodEstimate, GoodAux, Libm.Valid, Covariance, EskfUpdate, Isotropic, AccelVariance, AccelBookkeeping,
         GravityDirection, EmaAlpha, QToR, Norm, SpecificForce, AccelUsable, TurnedBy, Quad, Ext, Dot, TurnOf, JosephOf;
    if s.aux.initialized && AccelUsable(lib, s, m) {
      var a, u := AccelAux(lib, s, m), AccelUpdate(lib, s, m);
      var s0 := s.(aux := a);
      AccelAuxGood(lib, n, s, m);
      EstimateUnit(n, s);
      DownRowUnit(s.q);
      AccelNonzero(lib, s, m);
      assert UpdateAccel(lib, n, s, m) == Updated(lib, n, s0, u).0;
      if Updated(lib, n, s0, u).1 == Applied {
        AccelVarianceNonneg(a);
        IsotropicCovariance(3, AccelVariance(a));
        ProtectedUpdate(lib, n, s0, u);
        TurnedSame(lib, n, s, a, Updated(lib, n, s0, u).0, TurnOf(lib, n, s0, u), JosephOf(lib, n, s0, u));
      } else {
        NotApplied(lib, n, s0, u.h, u.z, u.Rn, u.ch, u.alpha, u.aw, u.protect);
      }
    }
  }

  /** The bookkeeping a usable sample leaves before the update runs. */
  function AccelAux(lib: Libm, s: State, m: ImuSample): Aux
    requires AccelUsable(lib, s, m)
  {
    var acc := SpecificForce(s, m);
    var a1 := AccelBookkeeping(lib, s.aux, Norm(lib, acc) / G_MS2);
    AccelNonzero(lib, s, m);
    a1.(health := a1.health.(dtAccum := 0.0), gBody := GravityDirection(acc, Norm(lib, acc)), gBodyValid := true)
  }

  lemma AccelAuxGood(lib: Libm, n: nat, s: State, m: ImuSample)
    requires Good(lib, n, s) && AccelUsable(lib, s, m)
    ensures GoodAux(AccelAux(lib, s, m)) && AccelAux(lib, s, m).tun == s.aux.tun
    ensures Good(lib, n, s.(aux := AccelAux(lib, s, m)))
  {
    hide GoodEstimate, Libm.Valid, GoodAux, SpecificForce, Norm, AccelBookkeeping, GravityDirection, AccelUsable;
    var acc := SpecificForce(s, m);
    AccelNonzero(lib, s, m);
    BookkeepingGood(lib, s.aux, Norm(lib, acc) / G_MS2);
    StashGood(AccelBookkeeping(lib, s.aux, Norm(lib, acc) / G_MS2), GravityDirection(acc, Norm(lib, acc)));
    AuxGood(lib, n, s, AccelAux(lib, s, m));
  }

  lemma NotApplied(lib: Libm, n: nat, s: State, h: V3, z: V3, Rn: Mat, ch: Channel, alpha: real, aw: Option<V3>, p: Option<V3>)
    requires EskfUpdate(lib, n, s, h, z, Rn, ch, alpha, aw, p).1 != Applied
    ensures var s' := EskfUpdate(lib, n, s, h, z, Rn, ch, alpha, aw, p).0;
            s'.q == s.q && s'.P == s.P && s'.bias == s.bias && s'.waveAcc == s.waveAcc
  {
    hide Correct, Gain, GainUsed, Judge, InnovInverse, Predicted, Distance, Col, Times;
  }

  // ---------- the noise-free direction of each update ----------

  /** Along ẑ the innovation covariance is R, so ẑ takes exactly one of d²'s three expected units. */
  ghost predicate NoisyOnlyAcross(S: Mat, z: V3, R: real) {
    && Mul(3, 3, 1, S, Col(z)) == Scale(3, 1, R, Col(z))
    && (Inv(ToM33(S)).Some? ==> R * Distance(z, Inv(ToM33(S)).value) == 1.0)
  }

  lemma EigenGivesShare(n: nat, P: Mat, H: Mat, Rn: Mat, z: V3, R: real)
    requires Covariance(n, P) && Covariance(3, Rn) && IsMat(H, 3, n) && LeftNull(n, z, H) && Dot(z, z) == 1.0
    requires Mul(3, 3, 1, Rn, Col(z)) == Scale(3, 1, R, Col(z))
    ensures NoisyOnlyAcross(InnovCov(n, 3, P, H, Rn), z, R)
  {
    hide Mul, Scale, InnovCov, Inv, Distance, Psd, LeftNull, Dot;
    InnovEigen(n, P, H, Rn, z, R);
    InnovCovariance(n, 3, P, H, Rn);
    if Inv(ToM33(InnovCov(n, 3, P, H, Rn))).Some? { RadialShare(InnovCov(n, 3, P, H, Rn), z, R); }
  }

  lemma PredictedMat(lib: Libm, n: nat, h: V3, aw: Option<V3>)
    ensures IsMat(Predicted(lib, n, h, aw).H, 3, n)
  {}

  /** Gravity update, with or without the wave state. */
  lemma AccelDirection(lib: Libm, n: nat, P: Mat, q: Quat, R: real, aw: Option<V3>)
    requires lib.Valid() && n >= 3 && Unit(q) && R >= 0.0 && Covariance(n, P)
    ensures var pr := Predicted(lib, n, QToR(q).r2, aw);
            NoisyOnlyAcross(InnovCov(n, 3, P, pr.H, Isotropic(3, R)), pr.zhat, R)
  {
    hide Predicted, Covariance, NoisyOnlyAcross, InnovCov, Isotropic, LeftNull, RightNull, Libm.Valid, Mul, Scale;
    var pr := Predicted(lib, n, QToR(q).r2, aw);
    DownRowUnit(q);
    PredictedNull(lib, n, QToR(q).r2, aw);
    PredictedMat(lib, n, QToR(q).r2, aw);
    IsotropicCovariance(3, R);
    IsotropicEigen(R, pr.zhat);
    EigenGivesShare(n, P, pr.H, Isotropic(3, R), pr.zhat, R);
  }

  /** 3-D magnetometer update: the dip term is tangent to ĥ, so it does not disturb that direction. */
  lemma MagDirection(lib: Libm, n: nat, P: Mat, a: Aux, M: M33, h: V3, hMag: real, mh: real, R: real)
    requires lib.Valid() && n >= 3 && Dot(h, h) == 1.0 && hMag > 0.0 && R >= 0.0 && Covariance(n, P)
    ensures NoisyOnlyAcross(InnovCov(n, 3, P, DirJacobian(n, h), DipNoise(lib, a, M, h, hMag, mh, R)), h, R)
  {
    hide DirJacobian, Covariance, NoisyOnlyAcross, InnovCov, LeftNull, RightNull, Libm.Valid, DipNoise, Mul, Scale;
    DirNull(n, h);
    DipNoiseCovariance(lib, a, M, h, hMag, mh, R);
    DipEigen(lib, a, M, h, hMag, mh, R);
    DirMat(n, h);
    EigenGivesShare(n, P, DirJacobian(n, h), DipNoise(lib, a, M, h, hMag, mh, R), h, R);
  }

  lemma DirMat(n: nat, h: V3)
    ensures IsMat(DirJacobian(n, h), 3, n)
  {}

  lemma DipEigen(lib: Libm, a: Aux, M: M33, h: V3, hMag: real, mh: real, R: real)
    requires hMag > 0.0
    ensures Mul(3, 3, 1, DipNoise(lib, a, M, h, hMag, mh, R), Col(h)) == Scale(3, 1, R, Col(h))
  {
    hide Mul, Scale, RankOneNoise, Isotropic, Cross, TMulV, Norm, Unitized, Dot, Col;
    IsotropicEigen(R, h);
    if a.tun.dipSig2 > 0.0 && mh > 0.2 * hMag {
      var b := TMulV(M, V3(a.mRef.y / mh, -a.mRef.x / mh, 0.0));
      var un := Norm(lib, Cross(b, h));
      if un > 0.000001 {
        CrossOrthogonal(b, h);
        DotSwap(h, Cross(b, h));
        DotUnitized(Cross(b, h), un, h);
        RankOneEigen(R, a.tun.dipSig2, Unitized(Cross(b, h), un), h);
      }
    }
  }

  lemma DotUnitized(u: V3, n: real, h: V3)
    requires n != 0.0 && Dot(u, h) == 0.0
    ensures Dot(Unitized(u, n), h) == 0.0
  {
    assert Unitized(u, n) == Times(1.0 / n, u);
    DotTimesLeft(1.0 / n, u, h);
  }
}
