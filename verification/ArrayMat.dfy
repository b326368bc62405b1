/**
 The matrix loops of src/fusion.c over two-dimensional arrays, each proved to compute the
 product, congruence or symmetrization it stands for.
 */
module ArrayMat {
  import opened Sums
  import opened Matrix
  import opened FusionMath
  import opened Fusion
  import opened FusionRuns

  /** The value an array holds. */
  ghost function Rows(a: array2<real>): (A: Mat)
    reads a
    ensures IsMat(A, a.Length0, a.Length1)
    ensures forall i, j :: 0 <= i < a.Length0 && 0 <= j < a.Length1 ==> At(A, i, j) == a[i, j]
  {
    seq(a.Length0, i requires 0 <= i < a.Length0 reads a =>
      seq(a.Length1, j requires 0 <= j < a.Length1 reads a => a[i, j]))
  }

  lemma RowsAre(a: array2<real>, A: Mat)
    requires IsMat(A, a.Length0, a.Length1)
    requires forall i, j :: 0 <= i < a.Length0 && 0 <= j < a.Length1 ==> a[i, j] == At(A, i, j)
    ensures Rows(a) == A
  {
    MatEq(Rows(a), A, a.Length0, a.Length1);
  }

  /** The first n terms of row i of A against column j of B. */
  ghost function Inner(n: nat, A: Mat, B: Mat, i: int, j: int): real {
    Sum(n, k => At(A, i, k) * At(B, k, j))
  }

  lemma InnerStep(n: nat, A: Mat, B: Mat, i: int, j: int)
    ensures Inner(n + 1, A, B, i, j) == Inner(n, A, B, i, j) + At(A, i, n) * At(B, n, j)
    ensures Inner(0, A, B, i, j) == 0.0
  {
    SumExt(n, k => At(A, i, k) * At(B, k, j), k => At(A, i, k) * At(B, k, j));
  }

  lemma InnerGrows(n: nat, A: Mat, B: Mat, i: int, j: int, p: real)
    requires p == At(A, i, n) * At(B, n, j)
    ensures Inner(n + 1, A, B, i, j) == Inner(n, A, B, i, j) + p
  {
    hide At, Inner;
    InnerStep(n, A, B, i, j);
  }

  lemma InnerMul(r: nat, n: nat, c: nat, A: Mat, B: Mat, i: nat, j: nat)
    requires i < r && j < c
    ensures At(Mul(r, n, c, A, B), i, j) == Inner(n, A, B, i, j)
  {
    hide At;
    MulAt(r, n, c, A, B, i, j);
    SumExt(n, k => At(A, i, k) * At(B, k, j), k => At(A, i, k) * At(B, k, j));
  }

  method InnerLoop(n: nat, A: array2<real>, B: array2<real>, i: nat, j: nat) returns (s: real)
    requires i < A.Length0 && n <= A.Length1 && n <= B.Length0 && j < B.Length1
    ensures s == Inner(n, Rows(A), Rows(B), i, j)
  {
    hide Inner;
    s := 0.0;
    InnerStep(0, Rows(A), Rows(B), i, j);
    for k := 0 to n
      invariant s == Inner(k, Rows(A), Rows(B), i, j)
    {
      var p := A[i, k] * B[k, j];
      InnerGrows(k, Rows(A), Rows(B), i, j, p);
      s := s + p;
    }
  }

  /** C = A × B. */
  method MulInto(r: nat, n: nat, c: nat, A: array2<real>, B: array2<real>, C: array2<real>)
    requires A.Length0 == r && A.Length1 == n && B.Length0 == n && B.Length1 == c && C.Length0 == r && C.Length1 == c
    requires C != A && C != B
    modifies C
    ensures Rows(C) == Mul(r, n, c, Rows(A), Rows(B))
  {
    hide Mul, Inner, At;
    for i := 0 to r
      invariant forall x, y :: 0 <= x < i && 0 <= y < c ==> C[x, y] == At(Mul(r, n, c, Rows(A), Rows(B)), x, y)
    {
      for j := 0 to c
        invariant forall x, y :: 0 <= x < i && 0 <= y < c ==> C[x, y] == At(Mul(r, n, c, Rows(A), Rows(B)), x, y)
        invariant forall y :: 0 <= y < j ==> C[i, y] == At(Mul(r, n, c, Rows(A), Rows(B)), i, y)
      {
        var s := InnerLoop(n, A, B, i, j);
        InnerMul(r, n, c, Rows(A), Rows(B), i, j);
        C[i, j] := s;
      }
    }
    RowsAre(C, Mul(r, n, c, Rows(A), Rows(B)));
  }

  method M33Into(M: M33, A: array2<real>)
    requires A.Length0 == 3 && A.Length1 == 3
    modifies A
    ensures Rows(A) == FromM33(M)
  {
    hide At, FromM33;
    A[0, 0], A[0, 1], A[0, 2] := M.r0.x, M.r0.y, M.r0.z;
    A[1, 0], A[1, 1], A[1, 2] := M.r1.x, M.r1.y, M.r1.z;
    A[2, 0], A[2, 1], A[2, 2] := M.r2.x, M.r2.y, M.r2.z;
    M33Entries(M);
    RowsAre(A, FromM33(M));
  }

  lemma M33Entries(M: M33)
    ensures var A := FromM33(M);
            && IsMat(A, 3, 3)
            && At(A, 0, 0) == M.r0.x && At(A, 0, 1) == M.r0.y && At(A, 0, 2) == M.r0.z
            && At(A, 1, 0) == M.r1.x && At(A, 1, 1) == M.r1.y && At(A, 1, 2) == M.r1.z
            && At(A, 2, 0) == M.r2.x && At(A, 2, 1) == M.r2.y && At(A, 2, 2) == M.r2.z
  {}

  // ---------- A × Bᵀ ----------

  method InnerTLoop(n: nat, A: array2<real>, B: array2<real>, i: nat, j: nat) returns (s: real)
    requires i < A.Length0 && n <= A.Length1 && j < B.Length0 && n == B.Length1
    ensures s == Inner(n, Rows(A), T(B.Length0, n, Rows(B)), i, j)
  {
    hide Inner, T;
    ghost var Bt := T(B.Length0, n, Rows(B));
    s := 0.0;
    InnerStep(0, Rows(A), Bt, i, j);
    for k := 0 to n
      invariant s == Inner(k, Rows(A), Bt, i, j)
    {
      TAt(B.Length0, n, Rows(B), k, j);
      var p := A[i, k] * B[j, k];
      InnerGrows(k, Rows(A), Bt, i, j, p);
      s := s + p;
    }
  }

  /** C = A × Bᵀ (mNN_mulT, dir_PHt). */
  method MulTInto(r: nat, n: nat, c: nat, A: array2<real>, B: array2<real>, C: array2<real>)
    requires A.Length0 == r && A.Length1 == n && B.Length0 == c && B.Length1 == n && C.Length0 == r && C.Length1 == c
    requires C != A && C != B
    modifies C
    ensures Rows(C) == Mul(r, n, c, Rows(A), T(c, n, Rows(B)))
  {
    hide Mul, Inner, At, T;
    for i := 0 to r
      invariant forall x, y :: 0 <= x < i && 0 <= y < c ==> C[x, y] == At(Mul(r, n, c, Rows(A), T(c, n, Rows(B))), x, y)
    {
      for j := 0 to c
        invariant forall x, y :: 0 <= x < i && 0 <= y < c ==> C[x, y] == At(Mul(r, n, c, Rows(A), T(c, n, Rows(B))), x, y)
        invariant forall y :: 0 <= y < j ==> C[i, y] == At(Mul(r, n, c, Rows(A), T(c, n, Rows(B))), i, y)
      {
        var s := InnerTLoop(n, A, B, i, j);
        InnerMul(r, n, c, Rows(A), T(c, n, Rows(B)), i, j);
        C[i, j] := s;
      }
    }
    RowsAre(C, Mul(r, n, c, Rows(A), T(c, n, Rows(B))));
  }

  // ---------- in place ----------

  /** mNN_symmetrize. */
  method SymmetrizeInPlace(n: nat, P: array2<real>)
    requires P.Length0 == n && P.Length1 == n
    modifies P
    ensures Rows(P) == Symmetrize(n, old(Rows(P)))
  {
    hide Symmetrize, At;
    ghost var P0 := Rows(P);
    for i := 0 to n
      invariant forall x, y :: 0 <= x < n && 0 <= y < n ==>
        P[x, y] == if x < i && y < i && x != y then 0.5 * (At(P0, x, y) + At(P0, y, x)) else At(P0, x, y)
    {
      for j := 0 to i
        invariant forall x, y :: 0 <= x < n && 0 <= y < n ==>
          P[x, y] == if (x < i && y < i && x != y) || (x == i && y < j) || (y == i && x < j)
                     then 0.5 * (At(P0, x, y) + At(P0, y, x)) else At(P0, x, y)
      {
        var a := 0.5 * (P[i, j] + P[j, i]);
        P[i, j] := a;
        P[j, i] := a;
      }
    }
    forall x, y | 0 <= x < n && 0 <= y < n ensures P[x, y] == At(Symmetrize(n, P0), x, y) {
      SymmetrizeAt(n, P0, x, y);
    }
    RowsAre(P, Symmetrize(n, P0));
  }

  lemma SymmetrizeAt(n: nat, P: Mat, i: nat, j: nat)
    requires i < n && j < n
    ensures At(Symmetrize(n, P), i, j) == 0.5 * (At(P, i, j) + At(P, j, i))
  {}

  /** P[i][i] += q for lo <= i < hi. */
  method AddDiagonal(P: array2<real>, lo: nat, hi: nat, q: real)
    requires lo <= hi <= P.Length0 == P.Length1
    modifies P
    ensures forall x, y :: 0 <= x < P.Length0 && 0 <= y < P.Length1 ==>
      P[x, y] == old(P[x, y]) + if x == y && lo <= x < hi then q else 0.0
  {
    for i := lo to hi
      invariant forall x, y :: 0 <= x < P.Length0 && 0 <= y < P.Length1 ==>
        P[x, y] == old(P[x, y]) + if x == y && lo <= x < i then q else 0.0
    {
      P[i, i] := P[i, i] + q;
    }
  }

  /** g_premul_rows3 with G the reset Jacobian of d: M ← diag(G, I, I) × M. */
  method PremulRows3(n: nat, m: nat, d: V3, M: array2<real>)
    requires n >= 3 && M.Length0 == n && M.Length1 == m
    modifies M
    ensures Rows(M) == Mul(n, n, m, ResetJac(n, d), old(Rows(M)))
  {
    hide Mul, ResetJac, At, ResetJac3, Dot;
    ghost var M0 := Rows(M);
    var G := ResetJac3(d);
    for j := 0 to m
      invariant forall x, y :: 0 <= x < n && 0 <= y < m ==>
        M[x, y] == if y < j then At(Mul(n, n, m, ResetJac(n, d), M0), x, y) else At(M0, x, y)
    {
      ghost var before := Rows(M);
      var c := V3(M[0, j], M[1, j], M[2, j]);
      M[0, j] := Dot(G.r0, c);
      M[1, j] := Dot(G.r1, c);
      M[2, j] := Dot(G.r2, c);
      forall x | 0 <= x < n ensures M[x, j] == At(Mul(n, n, m, ResetJac(n, d), M0), x, j) {
        ResetMulAt(n, m, d, M0, x, j);
      }
    }
    RowsAre(M, Mul(n, n, m, ResetJac(n, d), M0));
  }

  lemma ResetMulAt(n: nat, m: nat, d: V3, M: Mat, i: nat, j: nat)
    requires 3 <= n && i < n && j < m
    ensures At(Mul(n, n, m, ResetJac(n, d), M), i, j)
         == if i < 3 then Dot(RowOf(ResetJac3(d), i), V3(At(M, 0, j), At(M, 1, j), At(M, 2, j))) else At(M, i, j)
  {
    hide At, ResetJac3, EntryOf, Dot;
    var G := ResetJac(n, d);
    var f := k => At(G, i, k) * At(M, k, j);
    MulAt(n, n, m, G, M, i, j);
    SumExt(n, k => At(G, i, k) * At(M, k, j), f);
    if i < 3 {
      forall k | 3 <= k < n ensures f(k) == 0.0 {
        assert At(G, i, k) == 0.0;
      }
      SumTruncate(n, 3, f);
      Sum3(f);
      assert At(G, i, 0) == EntryOf(ResetJac3(d), i, 0);
      assert At(G, i, 1) == EntryOf(ResetJac3(d), i, 1);
      assert At(G, i, 2) == EntryOf(ResetJac3(d), i, 2);
      DotRow(ResetJac3(d), i, V3(At(M, 0, j), At(M, 1, j), At(M, 2, j)));
    } else {
      forall k | 0 <= k < n && k != i ensures f(k) == 0.0 {
        assert At(G, i, k) == 0.0;
      }
      SumSingle(n, i, f);
      assert At(G, i, i) == 1.0;
    }
  }

  lemma DotRow(A: M33, i: int, c: V3)
    requires 0 <= i < 3
    ensures Dot(RowOf(A, i), c) == EntryOf(A, i, 0) * c.x + EntryOf(A, i, 1) * c.y + EntryOf(A, i, 2) * c.z
  {}

  /** IKH = I - KH. */
  method ResidualInto(n: nat, m: nat, KH: array2<real>, IKH: array2<real>, ghost K: Mat, ghost H: Mat)
    requires KH.Length0 == n && KH.Length1 == n && IKH.Length0 == n && IKH.Length1 == n && KH != IKH
    requires Rows(KH) == Mul(n, m, n, K, H)
    modifies IKH
    ensures Rows(IKH) == Residual(n, m, K, H)
  {
    hide Mul, At, Residual;
    for i := 0 to n
      invariant forall x, y :: 0 <= x < i && 0 <= y < n ==> IKH[x, y] == (if x == y then 1.0 else 0.0) - KH[x, y]
    {
      for j := 0 to n
        invariant forall x, y :: 0 <= x < i && 0 <= y < n ==> IKH[x, y] == (if x == y then 1.0 else 0.0) - KH[x, y]
        invariant forall y :: 0 <= y < j ==> IKH[i, y] == (if i == y then 1.0 else 0.0) - KH[i, y]
      {
        IKH[i, j] := (if i == j then 1.0 else 0.0) - KH[i, j];
      }
    }
    forall x, y | 0 <= x < n && 0 <= y < n ensures IKH[x, y] == At(Residual(n, m, K, H), x, y) {
      ResidualAt(n, m, K, H, x, y);
    }
    RowsAre(IKH, Residual(n, m, K, H));
  }

  lemma ResidualAt(n: nat, m: nat, K: Mat, H: Mat, i: nat, j: nat)
    requires i < n && j < n
    ensures At(Residual(n, m, K, H), i, j) == (if i == j then 1.0 else 0.0) - At(Mul(n, m, n, K, H), i, j)
  {
    hide Mul;
  }

  // ---------- measurement noise ----------

  /** The noise an update is given: a full matrix, or R on the diagonal. */
  ghost function NoiseOf(m: nat, R33: array2?<real>, R: real): (N: Mat)
    requires R33 != null ==> R33.Length0 == m && R33.Length1 == m
    reads if R33 == null then {} else {R33}
  {
    if R33 == null then Isotropic(m, R) else Rows(R33)
  }

  /** dir_S: S = R + H × PHᵀ. */
  method InnovInto(n: nat, m: nat, H: array2<real>, PHt_: array2<real>, R33: array2?<real>, R: real, S: array2<real>,
                   ghost P: Mat)
    requires H.Length0 == m && H.Length1 == n && PHt_.Length0 == n && PHt_.Length1 == m && S.Length0 == m && S.Length1 == m
    requires R33 != null ==> R33.Length0 == m && R33.Length1 == m && R33 != S
    requires S != H && S != PHt_
    requires Rows(PHt_) == PHt(n, m, P, Rows(H))
    modifies S
    ensures Rows(S) == InnovCov(n, m, P, Rows(H), NoiseOf(m, R33, R))
  {
    hide Mul, Inner, At, PHt, Isotropic;
    ghost var N := NoiseOf(m, R33, R);
    ghost var B := Mul(m, n, m, Rows(H), Rows(PHt_));
    for i := 0 to m
      invariant forall x, y :: 0 <= x < i && 0 <= y < m ==> S[x, y] == At(N, x, y) + At(B, x, y)
    {
      for j := 0 to m
        invariant forall x, y :: 0 <= x < i && 0 <= y < m ==> S[x, y] == At(N, x, y) + At(B, x, y)
        invariant forall y :: 0 <= y < j ==> S[i, y] == At(N, i, y) + At(B, i, y)
      {
        var r := if R33 != null then R33[i, j] else if i == j then R else 0.0;
        IsotropicAt(m, R, i, j);
        assert R33 != null ==> R33[i, j] == At(N, i, j);
        var s := InnerLoop(n, H, PHt_, i, j);
        InnerMul(m, n, m, Rows(H), Rows(PHt_), i, j);
        S[i, j] := r + s;
      }
    }
    forall x, y | 0 <= x < m && 0 <= y < m ensures S[x, y] == At(Add(m, m, N, B), x, y) {
      AddAtEntry(m, N, B, x, y);
    }
    RowsAre(S, Add(m, m, N, B));
  }

  lemma AddAtEntry(m: nat, N: Mat, B: Mat, x: nat, y: nat)
    requires x < m && y < m
    ensures At(Add(m, m, N, B), x, y) == At(N, x, y) + At(B, x, y)
  {}

  lemma IsotropicAt(m: nat, R: real, i: nat, j: nat)
    requires i < m && j < m
    ensures At(Isotropic(m, R), i, j) == if i == j then R else 0.0
  {}

  /** Σ_k Σ_l K[i][k] R[k][l] K[j][l], as the source spells out the full-matrix case. */
  ghost function DoubleSum(m: nat, K: Mat, N: Mat, i: int, j: int): real {
    Sum(m, DoubleTerm(m, K, N, i, j))
  }

  ghost function DoubleTerm(m: nat, K: Mat, N: Mat, i: int, j: int): int -> real {
    k => Sum(m, RowTerm(K, N, i, j, k))
  }

  ghost function RowTerm(K: Mat, N: Mat, i: int, j: int, k: int): int -> real {
    l => At(K, i, k) * (At(N, k, l) * At(K, j, l))
  }

  lemma DoubleSumIs(n: nat, m: nat, K: Mat, N: Mat, i: nat, j: nat)
    requires i < n && j < n
    ensures At(Congruence(n, m, K, N), i, j) == DoubleSum(m, K, N, i, j)
  {
    hide At, Mul;
    var Kt := T(n, m, K);
    MulAssoc(n, m, m, n, K, N, Kt);
    RightDouble(n, m, m, n, K, N, Kt, i, j);
    forall k | 0 <= k < m
      ensures Sum(m, l => Term(K, N, Kt, i, j)(l, k)) == DoubleTerm(m, K, N, i, j)(k)
    {
      forall l | 0 <= l < m ensures Term(K, N, Kt, i, j)(l, k) == RowTerm(K, N, i, j, k)(l) {
        TAt(n, m, K, l, j);
      }
      SumExt(m, l => Term(K, N, Kt, i, j)(l, k), RowTerm(K, N, i, j, k));
    }
    SumExt(m, k => Sum(m, l => Term(K, N, Kt, i, j)(l, k)), DoubleTerm(m, K, N, i, j));
  }

  /** The scalar shortcut R·K Kᵀ is the general form with R on the diagonal. */
  lemma ScalarNoise(n: nat, m: nat, K: Mat, R: real, i: nat, j: nat)
    requires i < n && j < n
    ensures At(Congruence(n, m, K, Isotropic(m, R)), i, j) == R * Inner(m, K, T(n, m, K), i, j)
  {
    hide At, Mul, Isotropic;
    var N := Isotropic(m, R);
    DoubleSumIs(n, m, K, N, i, j);
    var g := k => At(K, i, k) * At(T(n, m, K), k, j);
    forall k | 0 <= k < m
      ensures DoubleTerm(m, K, N, i, j)(k) == R * g(k)
    {
      var f := RowTerm(K, N, i, j, k);
      forall l | 0 <= l < m && l != k ensures f(l) == 0.0 {
        IsotropicAt(m, R, k, l);
      }
      SumSingle(m, k, f);
      IsotropicAt(m, R, k, k);
      TAt(n, m, K, k, j);
      Rotate(At(K, i, k), R, At(K, j, k));
    }
    SumScale(m, R, g, DoubleTerm(m, K, N, i, j));
    SumExt(m, g, k => At(K, i, k) * At(T(n, m, K), k, j));
  }

  method RowLoop(m: nat, K: array2<real>, N: array2<real>, i: nat, j: nat, k: nat) returns (s: real)
    requires i < K.Length0 && j < K.Length0 && K.Length1 == m && N.Length0 == m && N.Length1 == m && k < m
    ensures s == Sum(m, RowTerm(Rows(K), Rows(N), i, j, k))
  {
    hide At;
    ghost var f := RowTerm(Rows(K), Rows(N), i, j, k);
    s := 0.0;
    for l := 0 to m
      invariant s == Sum(l, f)
    {
      assert f(l) == K[i, k] * (N[k, l] * K[j, l]);
      s := s + K[i, k] * (N[k, l] * K[j, l]);
    }
  }

  method DoubleLoop(m: nat, K: array2<real>, N: array2<real>, i: nat, j: nat) returns (s: real)
    requires i < K.Length0 && j < K.Length0 && K.Length1 == m && N.Length0 == m && N.Length1 == m
    ensures s == DoubleSum(m, Rows(K), Rows(N), i, j)
  {
    hide At;
    ghost var f := DoubleTerm(m, Rows(K), Rows(N), i, j);
    s := 0.0;
    for k := 0 to m
      invariant s == Sum(k, f)
    {
      var t := RowLoop(m, K, N, i, j, k);
      s := s + t;
    }
  }

  /** P += K R Kᵀ, by the scalar shortcut or by the full double sum. */
  method AddNoise(n: nat, m: nat, P: array2<real>, K: array2<real>, R33: array2?<real>, R: real)
    requires P.Length0 == n && P.Length1 == n && K.Length0 == n && K.Length1 == m && P != K
    requires R33 != null ==> R33.Length0 == m && R33.Length1 == m && R33 != P
    modifies P
    ensures Rows(P) == Add(n, n, old(Rows(P)), Congruence(n, m, Rows(K), NoiseOf(m, R33, R)))
  {
    hide Mul, At, Congruence, Isotropic, DoubleSum, Inner;
    ghost var P0 := Rows(P);
    ghost var C := Congruence(n, m, Rows(K), NoiseOf(m, R33, R));
    for i := 0 to n
      invariant forall x, y :: 0 <= x < n && 0 <= y < n ==> P[x, y] == At(P0, x, y) + if x < i then At(C, x, y) else 0.0
    {
      for j := 0 to n
        invariant forall x, y :: 0 <= x < n && 0 <= y < n ==>
          P[x, y] == At(P0, x, y) + if x < i || (x == i && y < j) then At(C, x, y) else 0.0
      {
        var t;
        if R33 != null {
          t := DoubleLoop(m, K, R33, i, j);
          DoubleSumIs(n, m, Rows(K), Rows(R33), i, j);
        } else {
          var s := InnerTLoop(m, K, K, i, j);
          ScalarNoise(n, m, Rows(K), R, i, j);
          t := R * s;
        }
        P[i, j] := P[i, j] + t;
      }
    }
    forall x, y | 0 <= x < n && 0 <= y < n ensures P[x, y] == At(Add(n, n, P0, C), x, y) {
      AddAtEntry(n, P0, C, x, y);
    }
    RowsAre(P, Add(n, n, P0, C));
  }

  /** memcpy of one matrix over another. */
  method CopyInto(n: nat, src: array2<real>, dst: array2<real>)
    requires src.Length0 == n && src.Length1 == n && dst.Length0 == n && dst.Length1 == n
    modifies dst
    ensures Rows(dst) == old(Rows(src))
  {
    ghost var S := Rows(src);
    forall i, j | 0 <= i < n && 0 <= j < n {
      dst[i, j] := src[i, j];
    }
    RowsAre(dst, S);
  }
}
