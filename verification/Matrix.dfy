/**
 Matrices of reals as sequences of rows, with every size written out.  `At` is total,
 so entries can be named inside sums without side conditions.
 */
module Matrix {
  import opened Sums

  type Mat = seq<seq<real>>

  predicate IsMat(A: Mat, r: nat, c: nat) {
    |A| == r && forall i :: 0 <= i < r ==> |A[i]| == c
  }

  function At(A: Mat, i: int, j: int): real {
    if 0 <= i < |A| && 0 <= j < |A[i]| then A[i][j] else 0.0
  }

  function Tab(r: nat, c: nat, f: (int, int) -> real): (A: Mat)
    ensures IsMat(A, r, c)
    ensures forall i, j :: 0 <= i < r && 0 <= j < c ==> At(A, i, j) == f(i, j)
  {
    seq(r, i => seq(c, j => f(i, j)))
  }

  lemma MatEq(A: Mat, B: Mat, r: nat, c: nat)
    requires IsMat(A, r, c) && IsMat(B, r, c)
    requires forall i, j :: 0 <= i < r && 0 <= j < c ==> At(A, i, j) == At(B, i, j)
    ensures A == B
  {
    forall i | 0 <= i < r ensures A[i] == B[i] {
      forall j | 0 <= j < c ensures A[i][j] == B[i][j] {
        assert At(A, i, j) == At(B, i, j);
      }
    }
  }

  /** Product of an r-by-n and an n-by-c matrix. */
  function Mul(r: nat, n: nat, c: nat, A: Mat, B: Mat): (C: Mat)
    ensures IsMat(C, r, c)
  {
    Tab(r, c, (i, j) => Sum(n, k => At(A, i, k) * At(B, k, j)))
  }

  function T(r: nat, c: nat, A: Mat): (B: Mat)
    ensures IsMat(B, c, r)
  {
    Tab(c, r, (i, j) => At(A, j, i))
  }

  function Add(r: nat, c: nat, A: Mat, B: Mat): (C: Mat)
    ensures IsMat(C, r, c)
  {
    Tab(r, c, (i, j) => At(A, i, j) + At(B, i, j))
  }

  function Scale(r: nat, c: nat, s: real, A: Mat): (C: Mat)
    ensures IsMat(C, r, c)
  {
    Tab(r, c, (i, j) => s * At(A, i, j))
  }

  function Eye(n: nat): (C: Mat)
    ensures IsMat(C, n, n)
  {
    Tab(n, n, (i, j) => if i == j then 1.0 else 0.0)
  }

  function Diag(n: nat, d: int -> real): (C: Mat)
    ensures IsMat(C, n, n)
  {
    Tab(n, n, (i, j) => if i == j then d(i) else 0.0)
  }

  function Zero(r: nat, c: nat): (C: Mat)
    ensures IsMat(C, r, c)
  {
    Tab(r, c, (i, j) => 0.0)
  }

  // ---------- algebra ----------

  lemma MulAt(r: nat, n: nat, c: nat, A: Mat, B: Mat, i: nat, j: nat)
    requires i < r && j < c
    ensures At(Mul(r, n, c, A, B), i, j) == Sum(n, k => At(A, i, k) * At(B, k, j))
  {}

  /** One term of the triple product. */
  function Term(A: Mat, B: Mat, C: Mat, i: int, j: int): (int, int) -> real {
    (k: int, l: int) => At(A, i, l) * (At(B, l, k) * At(C, k, j))
  }

  lemma LeftDouble(p: nat, q: nat, r: nat, s: nat, A: Mat, B: Mat, C: Mat, i: nat, j: nat)
    requires i < p && j < s
    ensures At(Mul(p, r, s, Mul(p, q, r, A, B), C), i, j)
         == Sum(r, k => Sum(q, l => Term(A, B, C, i, j)(k, l)))
  {
    hide At;
    var AB := Mul(p, q, r, A, B);
    MulAt(p, r, s, AB, C, i, j);
    forall k | 0 <= k < r
      ensures At(AB, i, k) * At(C, k, j) == Sum(q, l => Term(A, B, C, i, j)(k, l))
    {
      MulAt(p, q, r, A, B, i, k);
      forall l | 0 <= l < q
        ensures Term(A, B, C, i, j)(k, l) == At(C, k, j) * (At(A, i, l) * At(B, l, k))
      {
        Rotate(At(A, i, l), At(B, l, k), At(C, k, j));
      }
      SumScale(q, At(C, k, j), l => At(A, i, l) * At(B, l, k), l => Term(A, B, C, i, j)(k, l));
    }
    SumExt(r, k => At(AB, i, k) * At(C, k, j), k => Sum(q, l => Term(A, B, C, i, j)(k, l)));
  }

  lemma Rotate(a: real, b: real, c: real)
    ensures a * (b * c) == c * (a * b)
  {}

  lemma RightDouble(p: nat, q: nat, r: nat, s: nat, A: Mat, B: Mat, C: Mat, i: nat, j: nat)
    requires i < p && j < s
    ensures At(Mul(p, q, s, A, Mul(q, r, s, B, C)), i, j)
         == Sum(q, l => Sum(r, k => Term(A, B, C, i, j)(k, l)))
  {
    hide At;
    var BC := Mul(q, r, s, B, C);
    MulAt(p, q, s, A, BC, i, j);
    forall l | 0 <= l < q
      ensures At(A, i, l) * At(BC, l, j) == Sum(r, k => Term(A, B, C, i, j)(k, l))
    {
      MulAt(q, r, s, B, C, l, j);
      forall k | 0 <= k < r
        ensures Term(A, B, C, i, j)(k, l) == At(A, i, l) * (At(B, l, k) * At(C, k, j)) {}
      SumScale(r, At(A, i, l), k => At(B, l, k) * At(C, k, j), k => Term(A, B, C, i, j)(k, l));
    }
    SumExt(q, l => At(A, i, l) * At(BC, l, j), l => Sum(r, k => Term(A, B, C, i, j)(k, l)));
  }

  lemma MulAssoc(p: nat, q: nat, r: nat, s: nat, A: Mat, B: Mat, C: Mat)
    ensures Mul(p, r, s, Mul(p, q, r, A, B), C) == Mul(p, q, s, A, Mul(q, r, s, B, C))
  {
    var L, R := Mul(p, r, s, Mul(p, q, r, A, B), C), Mul(p, q, s, A, Mul(q, r, s, B, C));
    forall i, j | 0 <= i < p && 0 <= j < s ensures At(L, i, j) == At(R, i, j) {
      LeftDouble(p, q, r, s, A, B, C, i, j);
      RightDouble(p, q, r, s, A, B, C, i, j);
      SumSwap(r, q, Term(A, B, C, i, j));
    }
    MatEq(L, R, p, s);
  }

  lemma TMul(p: nat, q: nat, r: nat, A: Mat, B: Mat)
    ensures T(p, r, Mul(p, q, r, A, B)) == Mul(r, q, p, T(q, r, B), T(p, q, A))
  {
    hide At;
    var L, R := T(p, r, Mul(p, q, r, A, B)), Mul(r, q, p, T(q, r, B), T(p, q, A));
    forall i, j | 0 <= i < r && 0 <= j < p ensures At(L, i, j) == At(R, i, j) {
      SumExt(q, k => At(A, j, k) * At(B, k, i), k => At(T(q, r, B), i, k) * At(T(p, q, A), k, j));
    }
    MatEq(L, R, r, p);
  }

  lemma TT(r: nat, c: nat, A: Mat)
    requires IsMat(A, r, c)
    ensures T(c, r, T(r, c, A)) == A
  {
    MatEq(T(c, r, T(r, c, A)), A, r, c);
  }

  lemma MulAddLeft(r: nat, n: nat, c: nat, A: Mat, B: Mat, C: Mat)
    ensures Mul(r, n, c, Add(r, n, A, B), C) == Add(r, c, Mul(r, n, c, A, C), Mul(r, n, c, B, C))
  {
    hide At;
    var L, R := Mul(r, n, c, Add(r, n, A, B), C), Add(r, c, Mul(r, n, c, A, C), Mul(r, n, c, B, C));
    forall i, j | 0 <= i < r && 0 <= j < c ensures At(L, i, j) == At(R, i, j) {
      SumAdd(n, k => At(A, i, k) * At(C, k, j), k => At(B, i, k) * At(C, k, j),
             k => At(Add(r, n, A, B), i, k) * At(C, k, j));
    }
    MatEq(L, R, r, c);
  }

  lemma MulAddRight(r: nat, n: nat, c: nat, A: Mat, B: Mat, C: Mat)
    ensures Mul(r, n, c, A, Add(n, c, B, C)) == Add(r, c, Mul(r, n, c, A, B), Mul(r, n, c, A, C))
  {
    hide At;
    var L, R := Mul(r, n, c, A, Add(n, c, B, C)), Add(r, c, Mul(r, n, c, A, B), Mul(r, n, c, A, C));
    forall i, j | 0 <= i < r && 0 <= j < c ensures At(L, i, j) == At(R, i, j) {
      SumAdd(n, k => At(A, i, k) * At(B, k, j), k => At(A, i, k) * At(C, k, j),
             k => At(A, i, k) * At(Add(n, c, B, C), k, j));
    }
    MatEq(L, R, r, c);
  }

  lemma MulScaleRight(r: nat, n: nat, c: nat, s: real, A: Mat, B: Mat)
    ensures Mul(r, n, c, A, Scale(n, c, s, B)) == Scale(r, c, s, Mul(r, n, c, A, B))
  {
    hide At;
    var L, R := Mul(r, n, c, A, Scale(n, c, s, B)), Scale(r, c, s, Mul(r, n, c, A, B));
    forall i, j | 0 <= i < r && 0 <= j < c ensures At(L, i, j) == At(R, i, j) {
      SumScale(n, s, k => At(A, i, k) * At(B, k, j), k => At(A, i, k) * At(Scale(n, c, s, B), k, j));
    }
    MatEq(L, R, r, c);
  }

  lemma MulEye(r: nat, n: nat, A: Mat)
    requires IsMat(A, r, n)
    ensures Mul(r, n, n, A, Eye(n)) == A
    ensures Mul(r, r, n, Eye(r), A) == A
  {
    hide At;
    forall i, j | 0 <= i < r && 0 <= j < n
      ensures At(Mul(r, n, n, A, Eye(n)), i, j) == At(A, i, j)
      ensures At(Mul(r, r, n, Eye(r), A), i, j) == At(A, i, j)
    {
      forall k | 0 <= k < n && k != j ensures At(A, i, k) * At(Eye(n), k, j) == 0.0 {
        assert At(Eye(n), k, j) == 0.0;
      }
      SumSingle(n, j, k => At(A, i, k) * At(Eye(n), k, j));
      forall k | 0 <= k < r && k != i ensures At(Eye(r), i, k) * At(A, k, j) == 0.0 {
        assert At(Eye(r), i, k) == 0.0;
      }
      SumSingle(r, i, k => At(Eye(r), i, k) * At(A, k, j));
    }
    MatEq(Mul(r, n, n, A, Eye(n)), A, r, n);
    MatEq(Mul(r, r, n, Eye(r), A), A, r, n);
  }

  // ---------- quadratic forms ----------

  /** A P Aᵀ for an m-by-n A. */
  function Congruence(m: nat, n: nat, A: Mat, P: Mat): (C: Mat)
    ensures IsMat(C, m, m)
  {
    Mul(m, n, m, Mul(m, n, n, A, P), T(m, n, A))
  }

  /** xᵀ P x for a column x. */
  function Quad(n: nat, P: Mat, x: Mat): real {
    At(Mul(1, n, 1, T(n, 1, x), Mul(n, n, 1, P, x)), 0, 0)
  }

  ghost predicate Psd(n: nat, P: Mat) {
    forall x: Mat :: IsMat(x, n, 1) ==> Quad(n, P, x) >= 0.0
  }

  predicate Symmetric(n: nat, P: Mat) {
    forall i, j :: 0 <= i < n && 0 <= j < n ==> At(P, i, j) == At(P, j, i)
  }

  lemma SymmetricIsT(n: nat, P: Mat)
    requires IsMat(P, n, n)
    ensures Symmetric(n, P) <==> T(n, n, P) == P
  {
    if Symmetric(n, P) { MatEq(T(n, n, P), P, n, n); }
    if T(n, n, P) == P {
      forall i, j | 0 <= i < n && 0 <= j < n ensures At(P, i, j) == At(P, j, i) {
        assert At(T(n, n, P), i, j) == At(P, j, i);
      }
    }
  }

  /** The form of A P Aᵀ at x is the form of P at Aᵀ x. */
  lemma QuadCongruence(m: nat, n: nat, A: Mat, P: Mat, x: Mat)
    requires IsMat(A, m, n)
    ensures Quad(m, Congruence(m, n, A, P), x) == Quad(n, P, Mul(n, m, 1, T(m, n, A), x))
  {
    hide Mul, T, At;
    var At_ := T(m, n, A);
    var y := Mul(n, m, 1, At_, x);
    MulAssoc(m, n, m, 1, Mul(m, n, n, A, P), At_, x);
    MulAssoc(m, n, n, 1, A, P, y);
    MulAssoc(1, m, n, 1, T(m, 1, x), A, Mul(n, n, 1, P, y));
    TMul(n, m, 1, At_, x);
    TT(m, n, A);
  }

  lemma QuadAdd(n: nat, P: Mat, Q: Mat, x: Mat)
    ensures Quad(n, Add(n, n, P, Q), x) == Quad(n, P, x) + Quad(n, Q, x)
  {
    MulAddLeft(n, n, 1, P, Q, x);
    MulAddRight(1, n, 1, T(n, 1, x), Mul(n, n, 1, P, x), Mul(n, n, 1, Q, x));
  }

  lemma QuadDiag(n: nat, d: int -> real, x: Mat)
    ensures Quad(n, Diag(n, d), x) == Sum(n, i => d(i) * (At(x, i, 0) * At(x, i, 0)))
  {
    hide At;
    var y := Mul(n, n, 1, Diag(n, d), x);
    forall i | 0 <= i < n ensures At(y, i, 0) == d(i) * At(x, i, 0) {
      SumSingle(n, i, k => At(Diag(n, d), i, k) * At(x, k, 0));
    }
    QuadDiagSum(n, d, x, y);
  }

  lemma QuadDiagSum(n: nat, d: int -> real, x: Mat, y: Mat)
    requires forall i :: 0 <= i < n ==> At(y, i, 0) == d(i) * At(x, i, 0)
    ensures At(Mul(1, n, 1, T(n, 1, x), y), 0, 0) == Sum(n, i => d(i) * (At(x, i, 0) * At(x, i, 0)))
  {
    hide At;
    MulAt(1, n, 1, T(n, 1, x), y, 0, 0);
    forall k | 0 <= k < n
      ensures At(T(n, 1, x), 0, k) * At(y, k, 0) == d(k) * (At(x, k, 0) * At(x, k, 0))
    {
      assert At(T(n, 1, x), 0, k) == At(x, k, 0);
      Rotate(At(x, k, 0), d(k), At(x, k, 0));
      Rotate(d(k), At(x, k, 0), At(x, k, 0));
    }
    SumExt(n, k => At(T(n, 1, x), 0, k) * At(y, k, 0), i => d(i) * (At(x, i, 0) * At(x, i, 0)));
  }

  lemma PsdDiag(n: nat, d: int -> real)
    requires forall i :: 0 <= i < n ==> d(i) >= 0.0
    ensures Psd(n, Diag(n, d))
  {
    hide Quad, At;
    forall x: Mat | IsMat(x, n, 1) ensures Quad(n, Diag(n, d), x) >= 0.0 {
      QuadDiag(n, d, x);
      SumNonneg(n, i => d(i) * (At(x, i, 0) * At(x, i, 0)));
    }
  }

  lemma PsdCongruence(m: nat, n: nat, A: Mat, P: Mat)
    requires IsMat(A, m, n) && Psd(n, P)
    ensures Psd(m, Congruence(m, n, A, P))
  {
    hide Quad, At;
    forall x: Mat | IsMat(x, m, 1) ensures Quad(m, Congruence(m, n, A, P), x) >= 0.0 {
      QuadCongruence(m, n, A, P, x);
    }
  }

  lemma PsdAdd(n: nat, P: Mat, Q: Mat)
    requires Psd(n, P) && Psd(n, Q)
    ensures Psd(n, Add(n, n, P, Q))
  {
    hide Quad, At;
    forall x: Mat | IsMat(x, n, 1) ensures Quad(n, Add(n, n, P, Q), x) >= 0.0 {
      QuadAdd(n, P, Q, x);
    }
  }

  lemma SymmetricCongruence(m: nat, n: nat, A: Mat, P: Mat)
    requires IsMat(A, m, n) && IsMat(P, n, n) && Symmetric(n, P)
    ensures Symmetric(m, Congruence(m, n, A, P))
  {
    SymmetricIsT(n, P);
    SymmetricIsT(m, Congruence(m, n, A, P));
    CongruenceT(m, n, A, P);
  }

  lemma CongruenceT(m: nat, n: nat, A: Mat, P: Mat)
    requires IsMat(A, m, n) && IsMat(P, n, n)
    ensures T(m, m, Congruence(m, n, A, P)) == Congruence(m, n, A, T(n, n, P))
  {
    hide Mul, T;
    var At_ := T(m, n, A);
    TMul(m, n, m, Mul(m, n, n, A, P), At_);
    TMul(m, n, n, A, P);
    TT(m, n, A);
    MulAssoc(m, n, n, m, A, T(n, n, P), At_);
  }

  lemma SymmetricAdd(n: nat, P: Mat, Q: Mat)
    requires Symmetric(n, P) && Symmetric(n, Q)
    ensures Symmetric(n, Add(n, n, P, Q))
  {
    forall i, j | 0 <= i < n && 0 <= j < n
      ensures At(Add(n, n, P, Q), i, j) == At(Add(n, n, P, Q), j, i)
    {
      assert At(P, i, j) == At(P, j, i) && At(Q, i, j) == At(Q, j, i);
    }
  }
}
