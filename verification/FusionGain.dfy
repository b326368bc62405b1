/**
 What the unprojected Kalman gain does: with K = P Hᵀ S⁻¹ the Joseph form removes exactly
 Kᵀ's share of S from every direction, so an accepted update raises no variance.
 */
module FusionGain {
  import opened FusionMath
  import opened Sums
  import opened Matrix
  import opened Fusion
  import opened FusionRuns
  import opened FusionNull

  // ---------- S⁻¹ as a matrix ----------

  lemma FromMul(A: M33, B: M33)
    ensures Mul(3, 3, 3, FromM33(A), FromM33(B)) == FromM33(MulM(A, B))
  {
    hide At, EntryOf;
    var L := Mul(3, 3, 3, FromM33(A), FromM33(B));
    forall i, j | 0 <= i < 3 && 0 <= j < 3 ensures At(L, i, j) == At(FromM33(MulM(A, B)), i, j) {
      MulAt(3, 3, 3, FromM33(A), FromM33(B), i, j);
      Sum3(k => At(FromM33(A), i, k) * At(FromM33(B), k, j));
      FromAt(A);
      FromAt(B);
      FromAt(MulM(A, B));
      ProductEntry(A, B, i, j);
    }
    MatEq(L, FromM33(MulM(A, B)), 3, 3);
  }

  lemma FromAt(A: M33)
    ensures forall i, j :: 0 <= i < 3 && 0 <= j < 3 ==> At(FromM33(A), i, j) == EntryOf(A, i, j)
  {}

  lemma ProductEntry(A: M33, B: M33, i: int, j: int)
    requires 0 <= i < 3 && 0 <= j < 3
    ensures EntryOf(MulM(A, B), i, j)
         == EntryOf(A, i, 0) * EntryOf(B, 0, j) + EntryOf(A, i, 1) * EntryOf(B, 1, j) + EntryOf(A, i, 2) * EntryOf(B, 2, j)
  {
    hide Dot, TMulV, MulM;
    RowEntries(A, i);
    MulMColumn(A, B, j);
    ColumnEntry(MulM(A, B), j, i);
    ColumnOfProduct(A, ColOf(B, j), i);
    DotOf(A, B, i, j);
  }

  lemma ColumnEntry(A: M33, j: int, i: int)
    requires 0 <= i < 3
    ensures Entry(ColOf(A, j), i) == EntryOf(A, i, j)
  {}

  lemma ColumnOfProduct(A: M33, c: V3, i: int)
    requires 0 <= i < 3
    ensures Entry(MulV(A, c), i) == Dot(RowOf(A, i), c)
  {}

  lemma DotOf(A: M33, B: M33, i: int, j: int)
    requires 0 <= i < 3
    ensures Dot(RowOf(A, i), ColOf(B, j))
         == EntryOf(A, i, 0) * EntryOf(B, 0, j) + EntryOf(A, i, 1) * EntryOf(B, 1, j) + EntryOf(A, i, 2) * EntryOf(B, 2, j)
  {}

  lemma IdentityIsEye()
    ensures FromM33(IDENTITY) == Eye(3)
  {
    MatEq(FromM33(IDENTITY), Eye(3), 3, 3);
  }

  /** m33_inv's result, as the matrix the gain uses: S B = I, and B is symmetric when S is. */
  lemma InverseMat(S: Mat)
    requires IsMat(S, 3, 3) && Symmetric(3, S) && Inv(ToM33(S)).Some?
    ensures var B := FromM33(Inv(ToM33(S)).value);
            && Mul(3, 3, 3, S, B) == Eye(3)
            && T(3, 3, B) == B
            && IsMat(B, 3, 3)
  {
    hide Mul, T, FromM33, ToM33, MulM, Eye, Symmetric;
    var A := ToM33(S);
    InvRight(A);
    FromTo(S);
    FromMul(A, Inv(A).value);
    IdentityIsEye();
    FromMat(Inv(A).value);
    SymmetricInverse(S, FromM33(Inv(A).value));
  }

  lemma FromMat(A: M33)
    ensures IsMat(FromM33(A), 3, 3)
  {}

  lemma SymmetricInverse(S: Mat, B: Mat)
    requires IsMat(S, 3, 3) && Symmetric(3, S) && IsMat(B, 3, 3) && Mul(3, 3, 3, S, B) == Eye(3)
    ensures T(3, 3, B) == B
  {
    hide Mul, T, Eye, Symmetric;
    SymmetricIsT(3, S);
    TMul(3, 3, 3, S, B);
    EyeT();
    MulEye(3, 3, T(3, 3, B));
    MulAssoc(3, 3, 3, 3, T(3, 3, B), S, B);
    MulEye(3, 3, B);
  }

  lemma EyeT()
    ensures T(3, 3, Eye(3)) == Eye(3)
  {
    MatEq(T(3, 3, Eye(3)), Eye(3), 3, 3);
  }

  // ---------- expanding the form ----------

  /** uᵀ P v. */
  function Bil(n: nat, P: Mat, u: Mat, v: Mat): real {
    At(Mul(1, n, 1, T(n, 1, u), Mul(n, n, 1, P, v)), 0, 0)
  }

  lemma TAdd(n: nat, u: Mat, v: Mat)
    ensures T(n, 1, Add(n, 1, u, v)) == Add(1, n, T(n, 1, u), T(n, 1, v))
  {
    MatEq(T(n, 1, Add(n, 1, u, v)), Add(1, n, T(n, 1, u), T(n, 1, v)), 1, n);
  }

  lemma AddAt(A: Mat, B: Mat)
    ensures At(Add(1, 1, A, B), 0, 0) == At(A, 0, 0) + At(B, 0, 0)
  {}

  lemma QuadSum(n: nat, P: Mat, u: Mat, v: Mat)
    ensures Quad(n, P, Add(n, 1, u, v)) == Quad(n, P, u) + Bil(n, P, u, v) + Bil(n, P, v, u) + Quad(n, P, v)
  {
    hide Mul, T, Add, At;
    var Pu, Pv := Mul(n, n, 1, P, u), Mul(n, n, 1, P, v);
    var tu, tv := T(n, 1, u), T(n, 1, v);
    TAdd(n, u, v);
    MulAddRight(n, n, 1, P, u, v);
    MulAddLeft(1, n, 1, tu, tv, Add(n, 1, Pu, Pv));
    MulAddRight(1, n, 1, tu, Pu, Pv);
    MulAddRight(1, n, 1, tv, Pu, Pv);
    AddAt(Mul(1, n, 1, tu, Add(n, 1, Pu, Pv)), Mul(1, n, 1, tv, Add(n, 1, Pu, Pv)));
    AddAt(Mul(1, n, 1, tu, Pu), Mul(1, n, 1, tu, Pv));
    AddAt(Mul(1, n, 1, tv, Pu), Mul(1, n, 1, tv, Pv));
  }

  lemma ScalarT(A: Mat)
    ensures At(T(1, 1, A), 0, 0) == At(A, 0, 0)
  {}

  /** uᵀ P v = vᵀ Pᵀ u. */
  lemma BilSwap(n: nat, P: Mat, u: Mat, v: Mat)
    requires IsMat(P, n, n) && Symmetric(n, P) && IsMat(u, n, 1)
    ensures Bil(n, P, u, v) == Bil(n, P, v, u)
  {
    hide Mul, T, At, Symmetric;
    var Pv := Mul(n, n, 1, P, v);
    ScalarT(Mul(1, n, 1, T(n, 1, u), Pv));
    TMul(1, n, 1, T(n, 1, u), Pv);
    TT(n, 1, u);
    TMul(n, n, 1, P, v);
    SymmetricIsT(n, P);
    MulAssoc(1, n, n, 1, T(n, 1, v), P, u);
  }

  lemma NegMul(r: nat, n: nat, c: nat, A: Mat, B: Mat)
    ensures Mul(r, n, c, A, Scale(n, c, -1.0, B)) == Scale(r, c, -1.0, Mul(r, n, c, A, B))
  {
    MulScaleRight(r, n, c, -1.0, A, B);
  }

  lemma BilNeg(n: nat, P: Mat, u: Mat, v: Mat)
    ensures Bil(n, P, u, Scale(n, 1, -1.0, v)) == -Bil(n, P, u, v)
  {
    hide Mul, T, Scale, At;
    NegMul(n, n, 1, P, v);
    NegMul(1, n, 1, T(n, 1, u), Mul(n, n, 1, P, v));
    ScaleAt(Mul(1, n, 1, T(n, 1, u), Mul(n, n, 1, P, v)));
  }

  lemma ScaleAt(A: Mat)
    ensures At(Scale(1, 1, -1.0, A), 0, 0) == -At(A, 0, 0)
  {}

  lemma QuadNeg(n: nat, P: Mat, v: Mat)
    requires IsMat(P, n, n) && Symmetric(n, P) && IsMat(v, n, 1)
    ensures Quad(n, P, Scale(n, 1, -1.0, v)) == Quad(n, P, v)
  {
    hide Mul, T, Scale, At, Symmetric;
    var w := Scale(n, 1, -1.0, v);
    BilNeg(n, P, w, v);
    BilSwap(n, P, w, v);
    BilNeg(n, P, v, v);
  }

  // ---------- the residual map ----------

  /** (I - K H)ᵀ x = x - Hᵀ (Kᵀ x). */
  lemma ResidualTransposed(n: nat, m: nat, K: Mat, H: Mat, x: Mat)
    requires IsMat(x, n, 1)
    ensures Mul(n, n, 1, T(n, n, Residual(n, m, K, H)), x)
         == Add(n, 1, x, Scale(n, 1, -1.0, Mul(n, m, 1, T(m, n, H), Mul(m, n, 1, T(n, m, K), x))))
  {
    hide At, Mul, Residual;
    var L := Mul(n, n, 1, T(n, n, Residual(n, m, K, H)), x);
    var B := Mul(n, m, 1, T(m, n, H), Mul(m, n, 1, T(n, m, K), x));
    var R := Add(n, 1, x, Scale(n, 1, -1.0, B));
    TMul(n, m, n, K, H);
    MulAssoc(n, m, n, 1, T(m, n, H), T(n, m, K), x);
    forall i, c | 0 <= i < n && 0 <= c < 1 ensures At(L, i, c) == At(R, i, c) {
      ResidualTEntry(n, m, K, H, x, i);
    }
    MatEq(L, R, n, 1);
  }

  lemma ResidualTEntry(n: nat, m: nat, K: Mat, H: Mat, x: Mat, i: nat)
    requires i < n
    ensures At(Mul(n, n, 1, T(n, n, Residual(n, m, K, H)), x), i, 0)
         == At(x, i, 0) - At(Mul(n, n, 1, T(n, n, Mul(n, m, n, K, H)), x), i, 0)
  {
    hide At, Mul;
    var KH := Mul(n, m, n, K, H);
    var R := Residual(n, m, K, H);
    var keep := k => At(Eye(n), i, k) * At(x, k, 0);
    var lost := k => At(T(n, n, KH), i, k) * At(x, k, 0);
    var whole := k => At(T(n, n, R), i, k) * At(x, k, 0);
    MulAt(n, n, 1, T(n, n, R), x, i, 0);
    MulAt(n, n, 1, T(n, n, KH), x, i, 0);
    forall k | 0 <= k < n ensures keep(k) == whole(k) + lost(k) {
      TAt(n, n, R, i, k);
      TAt(n, n, KH, i, k);
      ResidualEntry(n, m, K, H, k, i);
      SplitProduct(At(R, k, i), At(KH, k, i), At(x, k, 0), At(Eye(n), i, k));
    }
    SumAdd(n, whole, lost, keep);
    forall k | 0 <= k < n && k != i ensures keep(k) == 0.0 {
      assert At(Eye(n), i, k) == 0.0;
    }
    SumSingle(n, i, keep);
    assert At(Eye(n), i, i) == 1.0;
  }

  // ---------- the gain ----------

  /** K S = P Hᵀ, seen from x: (Kᵀx)ᵀ S (Kᵀx) = xᵀ P Hᵀ (Kᵀx). */
  lemma GainCross(n: nat, P: Mat, H: Mat, S: Mat, B: Mat, x: Mat)
    requires IsMat(S, 3, 3) && IsMat(B, 3, 3) && Mul(3, 3, 3, S, B) == Eye(3) && T(3, 3, B) == B && IsMat(x, n, 1)
    ensures var K := Mul(n, 3, 3, PHt(n, 3, P, H), B);
            var y := Mul(3, n, 1, T(n, 3, K), x);
            Quad(3, S, y) == Bil(n, P, x, Mul(n, 3, 1, T(3, n, H), y))
  {
    hide Mul, T, Eye, At;
    var W := PHt(n, 3, P, H);
    var K := Mul(n, 3, 3, W, B);
    var y := Mul(3, n, 1, T(n, 3, K), x);
    var w := Mul(3, n, 1, T(n, 3, W), x);
    TMul(n, 3, 3, W, B);
    MulAssoc(3, 3, n, 1, B, T(n, 3, W), x);
    assert y == Mul(3, 3, 1, B, w);
    MulAssoc(3, 3, 3, 1, S, B, w);
    MulEye(3, 1, w);
    assert Mul(3, 3, 1, S, y) == w;
    GainCrossRight(n, P, H, x, y, w);
    YW(y, w);
  }

  lemma YW(y: Mat, w: Mat)
    requires IsMat(y, 3, 1) && IsMat(w, 3, 1)
    ensures At(Mul(1, 3, 1, T(3, 1, y), w), 0, 0) == At(Mul(1, 3, 1, T(3, 1, w), y), 0, 0)
  {
    hide Mul, T, At;
    ScalarT(Mul(1, 3, 1, T(3, 1, y), w));
    TMul(1, 3, 1, T(3, 1, y), w);
    TT(3, 1, y);
  }

  lemma GainCrossRight(n: nat, P: Mat, H: Mat, x: Mat, y: Mat, w: Mat)
    requires IsMat(x, n, 1) && w == Mul(3, n, 1, T(n, 3, PHt(n, 3, P, H)), x)
    ensures Bil(n, P, x, Mul(n, 3, 1, T(3, n, H), y)) == At(Mul(1, 3, 1, T(3, 1, w), y), 0, 0)
  {
    hide Mul, T, At;
    var W := PHt(n, 3, P, H);
    MulAssoc(n, n, 3, 1, P, T(3, n, H), y);
    MulAssoc(1, n, 3, 1, T(n, 1, x), W, y);
    TMul(3, n, 1, T(n, 3, W), x);
    PHtMat(n, P, H);
    TT(n, 3, W);
  }

  lemma PHtMat(n: nat, P: Mat, H: Mat)
    ensures IsMat(PHt(n, 3, P, H), n, 3)
  {}

  lemma QuadInnov(n: nat, P: Mat, H: Mat, Rn: Mat, y: Mat)
    requires IsMat(H, 3, n) && IsMat(y, 3, 1)
    ensures Quad(3, InnovCov(n, 3, P, H, Rn), y) == Quad(3, Rn, y) + Quad(n, P, Mul(n, 3, 1, T(3, n, H), y))
  {
    hide Mul, T, Add, Congruence, InnovCov, Quad;
    InnovCovForm(n, 3, P, H, Rn);
    QuadAdd(3, Rn, Congruence(3, n, H, P), y);
    QuadCongruence(3, n, H, P, y);
  }

  /** xᵀ P' x = xᵀ P x - (Kᵀx)ᵀ S (Kᵀx), before the reset. */
  lemma GainContracts(n: nat, P: Mat, H: Mat, Rn: Mat, x: Mat)
    requires Covariance(n, P) && Covariance(3, Rn) && IsMat(H, 3, n) && IsMat(x, n, 1)
    requires InnovInverse(n, P, H, Rn).Some?
    ensures var K := Gain(n, P, H, InnovInverse(n, P, H, Rn).value);
            var S := InnovCov(n, 3, P, H, Rn);
            && Quad(n, Joseph(n, 3, Residual(n, 3, K, H), P, K, Rn), x)
               == Quad(n, P, x) - Quad(3, S, Mul(3, n, 1, T(n, 3, K), x))
            && Quad(3, S, Mul(3, n, 1, T(n, 3, K), x)) >= 0.0
  {
    hide Mul, T, Add, Scale, Congruence, InnovCov, Quad, Bil, Residual, Inv, FromM33, Symmetric;
    var S := InnovCov(n, 3, P, H, Rn);
    var B := FromM33(InnovInverse(n, P, H, Rn).value);
    var K := Gain(n, P, H, InnovInverse(n, P, H, Rn).value);
    var y := Mul(3, n, 1, T(n, 3, K), x);
    var v := Mul(n, 3, 1, T(3, n, H), y);
    var A := Residual(n, 3, K, H);
    InnovCovariance(n, 3, P, H, Rn);
    InverseMat(S);
    GainCross(n, P, H, S, B, x);
    ResidualMat(n, 3, K, H);
    GainMat(n, P, H, InnovInverse(n, P, H, Rn).value);
    QuadAdd(n, Congruence(n, n, A, P), Congruence(n, 3, K, Rn), x);
    QuadCongruence(n, n, A, P, x);
    QuadCongruence(n, 3, K, Rn, x);
    ResidualTransposed(n, 3, K, H, x);
    var nv := Scale(n, 1, -1.0, v);
    QuadSum(n, P, x, nv);
    BilNeg(n, P, x, v);
    BilSwap(n, P, x, nv);
    QuadNeg(n, P, v);
    QuadInnov(n, P, H, Rn, y);
    assert Quad(3, S, y) >= 0.0;
  }

  lemma GainMat(n: nat, P: Mat, H: Mat, B: M33)
    ensures IsMat(Gain(n, P, H, B), n, 3)
  {}

  /** An unprotected vector update raises the variance of no combination of states: its Joseph form is nowhere above P. */
  lemma MagNeverInflates(lib: Libm, n: nat, s: State, u: Update)
    requires Good(lib, n, s) && Covariance(3, u.Rn) && u.aw == None && u.protect == None
    requires Updated(lib, n, s, u).1 == Applied
    ensures TurnedBy(lib, n, s, Updated(lib, n, s, u).0, TurnOf(lib, n, s, u), JosephOf(lib, n, s, u))
    ensures forall x: Mat :: IsMat(x, n, 1) ==> Quad(n, JosephOf(lib, n, s, u), x) <= Quad(n, s.P, x)
  {
    hide Correct, Covariance, Gain, Judge, InnovInverse, DirJacobian, Distance, Col, Times, Residual, Predicted,
         Joseph, Quad, Mul, T, TurnedBy, Sub3, Unit, Supported, Libm.Valid, InnovCov, WeightedInnov;
    PlainPrediction(lib, n, u.h);
    var H := DirJacobian(n, u.h);
    DirMat(n, u.h);
    var Sinv := InnovInverse(n, s.P, H, u.Rn).value;
    assert GainOf(lib, n, s, u) == Gain(n, s.P, H, Sinv);
    GainMat(n, s.P, H, Sinv);
    UpdateTurns(lib, n, s, u);
    forall x: Mat | IsMat(x, n, 1) ensures Quad(n, JosephOf(lib, n, s, u), x) <= Quad(n, s.P, x) {
      GainContracts(n, s.P, H, u.Rn, x);
    }
  }
}
