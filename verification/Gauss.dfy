/**
 gauss4 of src/cal_math.c: elimination with partial pivoting on a 4×5 work array, in place, and
 back substitution.  When it answers 0 the vector it leaves is the one solution of the system
 it was given.
 */
module Gauss {
  import opened FusionMath

  datatype X4 = X4(a: real, b: real, c: real, d: real)

  /** One equation: coefficients and right-hand side. */
  datatype Eqn = Eqn(p: real, q: real, r: real, s: real, rhs: real)

  /** Left side minus right side at x. */
  function Gap(e: Eqn, x: X4): real {
    e.p * x.a + e.q * x.b + e.r * x.c + e.s * x.d - e.rhs
  }

  /** The coefficient of unknown j. */
  function Coef(j: nat, e: Eqn): real {
    if j == 0 then e.p else if j == 1 then e.q else if j == 2 then e.r else e.s
  }

  type System = seq<Eqn>

  predicate Solves(m: System, x: X4) {
    forall i :: 0 <= i < |m| ==> Gap(m[i], x) == 0.0
  }

  /** Two systems have the same solutions. */
  ghost predicate SameSolutions(m: System, n: System) {
    forall x: X4 :: Solves(m, x) <==> Solves(n, x)
  }

  // ---------- row operations ----------

  /** a - f·b, by name. */
  function Less(a: real, f: real, b: real): real {
    a - f * b
  }

  lemma LessZero(f: real)
    ensures Less(0.0, f, 0.0) == 0.0
  {}

  function Minus5(e: Eqn, f: real, g: Eqn): Eqn {
    Eqn(Less(e.p, f, g.p), Less(e.q, f, g.q), Less(e.r, f, g.r), Less(e.s, f, g.s), Less(e.rhs, f, g.rhs))
  }

  lemma Times4(f: real, a: real, b: real, x: real)
    ensures (a - f * b) * x == a * x - f * (b * x)
  {}

  lemma GapMinus(e: Eqn, f: real, g: Eqn, x: X4)
    ensures Gap(Minus5(e, f, g), x) == Gap(e, x) - f * Gap(g, x)
  {
    Times4(f, e.p, g.p, x.a);
    Times4(f, e.q, g.q, x.b);
    Times4(f, e.r, g.r, x.c);
    Times4(f, e.s, g.s, x.d);
    Spread(f, g.p * x.a, g.q * x.b, g.r * x.c, g.s * x.d, g.rhs);
  }

  lemma Spread(f: real, a: real, b: real, c: real, d: real, e: real)
    ensures f * (a + b + c + d - e) == f * a + f * b + f * c + f * d - f * e
  {}

  /** Taking a multiple of one equation from another changes no solution. */
  lemma EliminateKeeps(m: System, i: nat, k: nat, f: real)
    requires i < |m| && k < |m| && i != k
    ensures SameSolutions(m, m[i := Minus5(m[i], f, m[k])])
  {
    hide Gap, Minus5;
    var n := m[i := Minus5(m[i], f, m[k])];
    forall x: X4 ensures Solves(m, x) <==> Solves(n, x) {
      GapMinus(m[i], f, m[k], x);
      if Solves(m, x) {
        forall j | 0 <= j < |n| ensures Gap(n[j], x) == 0.0 {
          assert Gap(m[j], x) == 0.0 && Gap(m[k], x) == 0.0;
        }
      }
      if Solves(n, x) {
        assert Gap(n[k], x) == 0.0 && Gap(n[i], x) == 0.0;
        forall j | 0 <= j < |m| ensures Gap(m[j], x) == 0.0 {
          assert Gap(n[j], x) == 0.0;
        }
      }
    }
  }

  /** Nor does exchanging two equations. */
  lemma SwapKeeps(m: System, i: nat, k: nat)
    requires i < |m| && k < |m|
    ensures SameSolutions(m, m[i := m[k]][k := m[i]])
  {
    hide Gap;
    var n := m[i := m[k]][k := m[i]];
    forall x: X4 ensures Solves(m, x) <==> Solves(n, x) {
      if Solves(m, x) {
        forall j | 0 <= j < |n| ensures Gap(n[j], x) == 0.0 {
          assert Gap(m[j], x) == 0.0 && Gap(m[i], x) == 0.0 && Gap(m[k], x) == 0.0;
        }
      }
      if Solves(n, x) {
        forall j | 0 <= j < |m| ensures Gap(m[j], x) == 0.0 {
          assert Gap(n[j], x) == 0.0 && Gap(n[i], x) == 0.0 && Gap(n[k], x) == 0.0;
        }
      }
    }
  }

  lemma SameTrans(m: System, n: System, o: System)
    requires SameSolutions(m, n) && SameSolutions(n, o)
    ensures SameSolutions(m, o)
  {
    hide Solves;
    forall x: X4 ensures Solves(m, x) <==> Solves(o, x) { assert Solves(n, x) <==> Solves(n, x); }
  }

  // ---------- elimination with partial pivoting, on systems ----------

  const PIVOT_MIN := 0.000000000001

  /** Of rows col to upTo - 1, the first with the largest coefficient of unknown col. */
  function Largest(m: System, col: nat, upTo: nat): (r: nat)
    requires |m| == 4 && col < upTo <= 4
    ensures col <= r < upTo
    decreases upTo
  {
    if upTo == col + 1 then col
    else
      var p := Largest(m, col, upTo - 1);
      if Abs(Coef(col, m[upTo - 1])) > Abs(Coef(col, m[p])) then upTo - 1 else p
  }

  function Pivoted(m: System, col: nat): (n: System)
    requires |m| == 4 && col < 4
    ensures |n| == 4
  {
    var p := Largest(m, col, 4);
    m[col := m[p]][p := m[col]]
  }

  /** Unknown col taken out of the rows from col + 1 to upTo - 1. */
  function Below(m: System, col: nat, upTo: nat): (n: System)
    requires |m| == 4 && col < upTo <= 4 && Coef(col, m[col]) != 0.0
    ensures |n| == 4 && n[col] == m[col]
    decreases upTo
  {
    if upTo == col + 1 then m
    else
      var n := Below(m, col, upTo - 1);
      n[upTo - 1 := Minus5(n[upTo - 1], Coef(col, n[upTo - 1]) / Coef(col, n[col]), n[col])]
  }

  datatype Elimination = Going(m: System) | Singular

  function Next(m: System, col: nat): (e: Elimination)
    requires |m| == 4 && col < 4
    ensures e.Going? ==> |e.m| == 4
  {
    var s := Pivoted(m, col);
    if Abs(Coef(col, s[col])) < PIVOT_MIN then Singular else Going(Below(s, col, 4))
  }

  function Stage(m: System, cols: nat): (e: Elimination)
    requires |m| == 4 && cols <= 4
    ensures e.Going? ==> |e.m| == 4
  {
    if cols == 0 then Going(m)
    else match Stage(m, cols - 1)
      case Singular => Singular
      case Going(n) => Next(n, cols - 1)
  }

  /** Elimination finds a pivot of at least 1e-12 in every column. */
  predicate Determined(m: System)
    requires |m| == 4
  {
    Stage(m, 4).Going?
  }

  // ---------- the work array ----------

  ghost function EqnAt(M: array2<real>, i: nat): Eqn
    requires M.Length0 == 4 && M.Length1 == 5 && i < 4
    reads M
  {
    Eqn(M[i, 0], M[i, 1], M[i, 2], M[i, 3], M[i, 4])
  }

  ghost function SystemOf(M: array2<real>): System
    requires M.Length0 == 4 && M.Length1 == 5
    reads M
  {
    [EqnAt(M, 0), EqnAt(M, 1), EqnAt(M, 2), EqnAt(M, 3)]
  }

  ghost function Given(A: array2<real>, b: array<real>): System
    requires A.Length0 == 4 && A.Length1 == 4 && b.Length == 4
    reads A, b
  {
    [Eqn(A[0, 0], A[0, 1], A[0, 2], A[0, 3], b[0]), Eqn(A[1, 0], A[1, 1], A[1, 2], A[1, 3], b[1]),
     Eqn(A[2, 0], A[2, 1], A[2, 2], A[2, 3], b[2]), Eqn(A[3, 0], A[3, 1], A[3, 2], A[3, 3], b[3])]
  }

  /** Below the diagonal, the first `cols` columns are zero. */
  ghost predicate Cleared(M: array2<real>, cols: nat)
    requires M.Length0 == 4 && M.Length1 == 5
    reads M
  {
    forall i, j :: 0 <= i < 4 && 0 <= j < cols && j < i ==> M[i, j] == 0.0
  }

  /** The pivots found so far are not small. */
  ghost predicate Pivots(M: array2<real>, cols: nat)
    requires M.Length0 == 4 && M.Length1 == 5 && cols <= 4
    reads M
  {
    forall i :: 0 <= i < cols ==> M[i, i] != 0.0
  }

  method SwapRows(M: array2<real>, i: nat, k: nat)
    requires M.Length0 == 4 && M.Length1 == 5 && i < 4 && k < 4 && i != k
    modifies M
    ensures SystemOf(M) == old(SystemOf(M))[i := old(SystemOf(M))[k]][k := old(SystemOf(M))[i]]
    ensures forall x, j :: 0 <= x < 4 && 0 <= j < 5 ==> M[x, j] == old(if x == i then M[k, j] else if x == k then M[i, j] else M[x, j])
  {
    for j := 0 to 5
      invariant forall x, y :: 0 <= x < 4 && 0 <= y < 5 ==>
        M[x, y] == if y < j && x == i then old(M[k, y]) else if y < j && x == k then old(M[i, y]) else old(M[x, y])
    {
      var t := M[i, j];
      M[i, j] := M[k, j];
      M[k, j] := t;
    }
  }

  /** Row `row` less f times row `col`, from column `col` on; what is left of it is zero in both. */
  method Subtract(M: array2<real>, row: nat, col: nat, f: real)
    requires M.Length0 == 4 && M.Length1 == 5 && col < row < 4
    requires forall j :: 0 <= j < col ==> M[row, j] == 0.0 && M[col, j] == 0.0
    modifies M
    ensures SystemOf(M) == old(SystemOf(M))[row := Minus5(old(SystemOf(M))[row], f, old(SystemOf(M))[col])]
    ensures forall x, j :: 0 <= x < 4 && 0 <= j < 5 ==>
      M[x, j] == if x == row && j >= col then Less(old(M[row, j]), f, old(M[col, j])) else old(M[x, j])
  {
    hide Less;
    for j := col to 5
      invariant forall x, y :: 0 <= x < 4 && 0 <= y < 5 ==>
        M[x, y] == if x == row && col <= y < j then Less(old(M[row, y]), f, old(M[col, y])) else old(M[x, y])
    {
      M[row, j] := Less(M[row, j], f, M[col, j]);
    }
    LessZero(f);
    assert EqnAt(M, row) == Minus5(old(EqnAt(M, row)), f, old(EqnAt(M, col)));
  }

  /** The row at or below col whose entry in that column is largest. */
  method FindPivot(M: array2<real>, col: nat) returns (pivot: nat)
    requires M.Length0 == 4 && M.Length1 == 5 && col < 4
    ensures col <= pivot < 4
    ensures pivot == Largest(SystemOf(M), col, 4)
  {
    pivot := col;
    for row := col + 1 to 4
      invariant pivot == Largest(SystemOf(M), col, row)
    {
      CoefAt(M, row, col);
      CoefAt(M, pivot, col);
      if Abs(M[row, col]) > Abs(M[pivot, col]) { pivot := row; }
    }
  }

  lemma CoefAt(M: array2<real>, i: nat, j: nat)
    requires M.Length0 == 4 && M.Length1 == 5 && i < 4 && j < 4
    ensures Coef(j, SystemOf(M)[i]) == M[i, j]
  {}

  lemma Cancels(a: real, b: real)
    requires b != 0.0
    ensures Less(a, a / b, b) == 0.0
  {}

  /** One column: pivot, refuse a small one, clear below it. */
  method Column(M: array2<real>, col: nat) returns (ok: bool)
    requires M.Length0 == 4 && M.Length1 == 5 && col < 4 && Cleared(M, col) && Pivots(M, col)
    modifies M
    ensures SameSolutions(old(SystemOf(M)), SystemOf(M))
    ensures ok ==> Cleared(M, col + 1) && Pivots(M, col + 1)
    ensures match Next(old(SystemOf(M)), col) case Singular => !ok case Going(n) => ok && SystemOf(M) == n
  {
    hide SameSolutions, SystemOf, Minus5, Less, Coef, Largest, Below;
    ghost var m0 := SystemOf(M);
    SameSelf(m0);
    SystemLength(M);
    var pivot := FindPivot(M, col);
    if pivot != col {
      SwapKeeps(m0, col, pivot);
      SwapRows(M, col, pivot);
    }
    ghost var s := Pivoted(m0, col);
    assert SystemOf(M) == s;
    CoefAt(M, col, col);
    if Abs(M[col, col]) < PIVOT_MIN { return false; }
    BelowNone(s, col);
    for row := col + 1 to 4
      invariant SameSolutions(m0, SystemOf(M))
      invariant Cleared(M, col) && Pivots(M, col + 1)
      invariant forall i :: col < i < row ==> M[i, col] == 0.0
      invariant SystemOf(M) == Below(s, col, row)
    {
      var f := M[row, col] / M[col, col];
      Cancels(M[row, col], M[col, col]);
      SystemLength(M);
      CoefAt(M, row, col);
      CoefAt(M, col, col);
      BelowStep(s, col, row);
      EliminateKeeps(SystemOf(M), row, col, f);
      ghost var m1 := SystemOf(M);
      Subtract(M, row, col, f);
      SameTrans(m0, m1, SystemOf(M));
    }
    ok := true;
  }

  lemma BelowNone(m: System, col: nat)
    requires |m| == 4 && col < 4 && Coef(col, m[col]) != 0.0
    ensures Below(m, col, col + 1) == m
  {}

  lemma BelowStep(m: System, col: nat, row: nat)
    requires |m| == 4 && col < row < 4 && Coef(col, m[col]) != 0.0
    ensures var n := Below(m, col, row);
            Below(m, col, row + 1) == n[row := Minus5(n[row], Coef(col, n[row]) / Coef(col, n[col]), n[col])]
  {}

  lemma SystemLength(M: array2<real>)
    requires M.Length0 == 4 && M.Length1 == 5
    ensures |SystemOf(M)| == 4
  {}

  lemma SameSelf(m: System)
    ensures SameSolutions(m, m)
  {}

  // ---------- back substitution ----------

  /** An upper triangle with nonzero diagonal has the solution back substitution finds, and no other. */
  lemma TriangleUnique(m: System, x: X4, y: X4)
    requires |m| == 4
    requires m[1].p == 0.0 && m[2].p == 0.0 && m[2].q == 0.0 && m[3].p == 0.0 && m[3].q == 0.0 && m[3].r == 0.0
    requires m[0].p != 0.0 && m[1].q != 0.0 && m[2].r != 0.0 && m[3].s != 0.0
    requires x.d == m[3].rhs / m[3].s
    requires x.c == Less(m[2].rhs, m[2].s, x.d) / m[2].r
    requires x.b == Less(Less(m[1].rhs, m[1].r, x.c), m[1].s, x.d) / m[1].q
    requires x.a == Less(Less(Less(m[0].rhs, m[0].q, x.b), m[0].r, x.c), m[0].s, x.d) / m[0].p
    ensures Solves(m, y) <==> y == x
  {
    Divided(x.d, m[3].rhs, m[3].s, y.d);
    Divided(x.c, m[2].rhs - m[2].s * x.d, m[2].r, y.c);
    Divided(x.b, m[1].rhs - m[1].r * x.c - m[1].s * x.d, m[1].q, y.b);
    Divided(x.a, m[0].rhs - m[0].q * x.b - m[0].r * x.c - m[0].s * x.d, m[0].p, y.a);
    if y == x {
      assert Gap(m[0], x) == 0.0 && Gap(m[1], x) == 0.0 && Gap(m[2], x) == 0.0 && Gap(m[3], x) == 0.0;
    }
    if Solves(m, y) {
      assert Gap(m[3], y) == 0.0;
      assert y.d == x.d;
      assert Gap(m[2], y) == 0.0;
      assert y.c == x.c;
      assert Gap(m[1], y) == 0.0;
      assert y.b == x.b;
      assert Gap(m[0], y) == 0.0;
    }
  }

  /** q = n / d exactly when d·q = n, and nothing else satisfies that. */
  lemma Divided(q: real, n: real, d: real, z: real)
    requires d != 0.0 && q == n / d
    ensures d * q == n
    ensures d * z == n ==> z == q
  {
    if d * z == n { Cancel(z, q, d); }
  }

  /** Row i's right-hand side less the terms in columns i+1 to j-1. */
  function Reduced(m: seq<real>, x: seq<real>, i: nat, j: nat): real
    requires |m| == 5 && |x| == 4 && i < j <= 4
    decreases j
  {
    if j == i + 1 then m[4] else Less(Reduced(m, x, i, j - 1), m[j - 1], x[j - 1])
  }

  ghost function RowOf(M: array2<real>, i: nat): seq<real>
    requires M.Length0 == 4 && M.Length1 == 5 && i < 4
    reads M
  {
    [M[i, 0], M[i, 1], M[i, 2], M[i, 3], M[i, 4]]
  }

  lemma {:induction false} ReducedSame(m: seq<real>, x: seq<real>, y: seq<real>, i: nat, j: nat)
    requires |m| == 5 && |x| == 4 && |y| == 4 && i < j <= 4
    requires forall k :: i < k < 4 ==> x[k] == y[k]
    ensures Reduced(m, x, i, j) == Reduced(m, y, i, j)
    decreases j
  {
    if j > i + 1 { ReducedSame(m, x, y, i, j - 1); }
  }

  /** One row of back substitution, accumulated in x[i]. */
  method SolveRow(M: array2<real>, x: array<real>, i: nat)
    requires M.Length0 == 4 && M.Length1 == 5 && x.Length == 4 && i < 4 && M[i, i] != 0.0
    modifies x
    ensures forall k :: 0 <= k < 4 && k != i ==> x[k] == old(x[k])
    ensures x[i] == Reduced(RowOf(M, i), old(x[..]), i, 4) / M[i, i]
  {
    hide Less;
    ghost var m, x0 := RowOf(M, i), x[..];
    x[i] := M[i, 4];
    for j := i + 1 to 4
      invariant forall k :: 0 <= k < 4 && k != i ==> x[k] == x0[k]
      invariant x[i] == Reduced(m, x0, i, j)
    {
      x[i] := Less(x[i], M[i, j], x[j]);
    }
    x[i] := x[i] / M[i, i];
  }

  method BackSubstitute(M: array2<real>, x: array<real>)
    requires M.Length0 == 4 && M.Length1 == 5 && x.Length == 4 && Cleared(M, 4) && Pivots(M, 4)
    modifies x
    ensures forall y: X4 :: Solves(SystemOf(M), y) <==> y == X4(x[0], x[1], x[2], x[3])
  {
    hide Reduced, Solves, SystemOf;
    var i := 4;
    while i > 0
      modifies x
      invariant 0 <= i <= 4
      invariant forall k :: i <= k < 4 ==> x[k] == Reduced(RowOf(M, k), x[..], k, 4) / M[k, k]
    {
      i := i - 1;
      ghost var before := x[..];
      SolveRow(M, x, i);
      forall k | i <= k < 4 ensures x[k] == Reduced(RowOf(M, k), x[..], k, 4) / M[k, k] {
        ReducedSame(RowOf(M, k), before, x[..], k, 4);
      }
    }
    forall y: X4 ensures Solves(SystemOf(M), y) <==> y == X4(x[0], x[1], x[2], x[3]) {
      Triangle(M, x, y);
    }
  }

  lemma Triangle(M: array2<real>, x: array<real>, y: X4)
    requires M.Length0 == 4 && M.Length1 == 5 && x.Length == 4 && Cleared(M, 4) && Pivots(M, 4)
    requires forall k :: 0 <= k < 4 ==> x[k] == Reduced(RowOf(M, k), x[..], k, 4) / M[k, k]
    ensures Solves(SystemOf(M), y) <==> y == X4(x[0], x[1], x[2], x[3])
  {
    ReducedRows(RowOf(M, 0), x[..]);
    ReducedRows(RowOf(M, 1), x[..]);
    ReducedRows(RowOf(M, 2), x[..]);
    ReducedRows(RowOf(M, 3), x[..]);
    hide Solves, Reduced, Less, Gap;
    TriangleUnique(SystemOf(M), X4(x[0], x[1], x[2], x[3]), y);
  }

  lemma ReducedRows(m: seq<real>, x: seq<real>)
    requires |m| == 5 && |x| == 4
    ensures Reduced(m, x, 3, 4) == m[4]
    ensures Reduced(m, x, 2, 4) == Less(m[4], m[3], x[3])
    ensures Reduced(m, x, 1, 4) == Less(Less(m[4], m[2], x[2]), m[3], x[3])
    ensures Reduced(m, x, 0, 4) == Less(Less(Less(m[4], m[1], x[1]), m[2], x[2]), m[3], x[3])
  {
    hide Less;
    assert Reduced(m, x, 0, 2) == Less(m[4], m[1], x[1]);
    assert Reduced(m, x, 0, 3) == Less(Reduced(m, x, 0, 2), m[2], x[2]);
    assert Reduced(m, x, 1, 3) == Less(m[4], m[2], x[2]);
  }

  // ---------- gauss4 ----------

  /** gauss4: 0 leaves in x the one solution of A·x = b; -1 refuses a pivot below 1e-12, and x is untouched. */
  method Gauss4(A: array2<real>, b: array<real>, x: array<real>) returns (rc: int)
    requires A.Length0 == 4 && A.Length1 == 4 && b.Length == 4 && x.Length == 4 && x != b
    modifies x
    ensures rc == if Determined(Given(A, b)) then 0 else -1
    ensures rc == 0 ==> forall y: X4 :: Solves(Given(A, b), y) <==> y == X4(x[0], x[1], x[2], x[3])
    ensures rc == -1 ==> x[..] == old(x[..])
  {
    hide Solves, Next, SameSolutions;
    var M := new real[4, 5];
    for i := 0 to 4
      modifies M
      invariant forall x, y :: 0 <= x < i && 0 <= y < 4 ==> M[x, y] == A[x, y]
      invariant forall x :: 0 <= x < i ==> M[x, 4] == b[x]
    {
      for j := 0 to 4
        modifies M
        invariant forall x, y :: 0 <= x < i && 0 <= y < 4 ==> M[x, y] == A[x, y]
        invariant forall x :: 0 <= x < i ==> M[x, 4] == b[x]
        invariant forall y :: 0 <= y < j ==> M[i, y] == A[i, y]
      {
        M[i, j] := A[i, j];
      }
      M[i, 4] := b[i];
    }
    ghost var m0 := Given(A, b);
    assert SystemOf(M) == m0;
    SameSelf(m0);
    for col := 0 to 4
      modifies M
      invariant Cleared(M, col) && Pivots(M, col) && SameSolutions(m0, SystemOf(M))
      invariant Stage(m0, col) == Going(SystemOf(M))
    {
      ghost var m1 := SystemOf(M);
      var ok := Column(M, col);
      if !ok {
        SingularStays(m0, col + 1);
        return -1;
      }
      SameTrans(m0, m1, SystemOf(M));
    }
    ghost var m4 := SystemOf(M);
    BackSubstitute(M, x);
    assert SystemOf(M) == m4 && Given(A, b) == m0;
    forall y: X4 ensures Solves(m0, y) <==> y == X4(x[0], x[1], x[2], x[3]) {
      SameAt(m0, m4, y);
    }
    rc := 0;
  }

  lemma SameAt(m: System, n: System, y: X4)
    requires SameSolutions(m, n)
    ensures Solves(m, y) <==> Solves(n, y)
  {}

  lemma {:induction false} SingularStays(m: System, cols: nat)
    requires |m| == 4 && cols <= 4 && Stage(m, cols) == Singular
    ensures Stage(m, 4) == Singular
    decreases 4 - cols
  {
    hide Next;
    if cols < 4 {
      assert Stage(m, cols + 1) == Singular;
      SingularStays(m, cols + 1);
    }
  }
}
