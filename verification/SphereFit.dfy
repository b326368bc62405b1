/**
 The linear fits of src/cal_math.c: a sphere through accumulated samples, a circle through the
 horizontal ones, and the soft-iron block against a sphere.  Each solves normal equations by
 gauss4, and each recovers exactly what its samples lie on.
 */
module SphereFit {
  import opened FusionMath
  import opened Gauss

  // ---------- normal equations ----------

  /** a + k·b, by name. */
  function More(a: real, k: real, b: real): real {
    a + k * b
  }

  function AddScaled(e: Eqn, k: real, g: Eqn): Eqn {
    Eqn(More(e.p, k, g.p), More(e.q, k, g.q), More(e.r, k, g.r), More(e.s, k, g.s), More(e.rhs, k, g.rhs))
  }

  const NO_EQN := Eqn(0.0, 0.0, 0.0, 0.0, 0.0)

  /** The j-th normal equation of a list of observations: each weighted by its own j-th coefficient. */
  function Normal(j: nat, rows: seq<Eqn>): Eqn {
    if rows == [] then NO_EQN
    else AddScaled(Normal(j, rows[..|rows| - 1]), Coef(j, rows[|rows| - 1]), rows[|rows| - 1])
  }

  lemma GapAddScaled(e: Eqn, k: real, g: Eqn, x: X4)
    ensures Gap(AddScaled(e, k, g), x) == Gap(e, x) + k * Gap(g, x)
  {
    Product(e.p, k, g.p, x.a);
    Product(e.q, k, g.q, x.b);
    Product(e.r, k, g.r, x.c);
    Product(e.s, k, g.s, x.d);
    Spread(k, g.p * x.a, g.q * x.b, g.r * x.c, g.s * x.d, g.rhs);
  }

  lemma Product(a: real, k: real, b: real, x: real)
    ensures (a + k * b) * x == a * x + k * (b * x)
  {}

  /** What satisfies every observation satisfies every normal equation. */
  lemma {:induction false} NormalHolds(j: nat, rows: seq<Eqn>, x: X4)
    requires forall i :: 0 <= i < |rows| ==> Gap(rows[i], x) == 0.0
    ensures Gap(Normal(j, rows), x) == 0.0
    decreases |rows|
  {
    hide Gap, AddScaled, Coef;
    if rows == [] {
      NoGap(x);
    } else {
      var last := rows[|rows| - 1];
      NormalHolds(j, rows[..|rows| - 1], x);
      GapAddScaled(Normal(j, rows[..|rows| - 1]), Coef(j, last), last, x);
    }
  }

  /** The four normal equations of a list of observations. */
  function NormalSystem(rows: seq<Eqn>): System {
    [Normal(0, rows), Normal(1, rows), Normal(2, rows), Normal(3, rows)]
  }

  /** The sum of squared residuals. */
  function Misfit(rows: seq<Eqn>, x: X4): real {
    if rows == [] then 0.0 else Misfit(rows[..|rows| - 1], x) + Sq(Gap(rows[|rows| - 1], x))
  }

  function Change(j: nat, x: X4, y: X4): real {
    if j == 0 then y.a - x.a else if j == 1 then y.b - x.b else if j == 2 then y.c - x.c else y.d - x.d
  }

  /** Going from x to y, what the normal equations' gaps at x promise the misfit changes by at least, halved. */
  function Promise(rows: seq<Eqn>, x: X4, y: X4): real {
    Prod(Change(0, x, y), Gap(Normal(0, rows), x)) + Prod(Change(1, x, y), Gap(Normal(1, rows), x))
    + Prod(Change(2, x, y), Gap(Normal(2, rows), x)) + Prod(Change(3, x, y), Gap(Normal(3, rows), x))
  }

  lemma GapDifference(e: Eqn, x: X4, y: X4)
    ensures Gap(e, y) - Gap(e, x) == Prod(Change(0, x, y), Coef(0, e)) + Prod(Change(1, x, y), Coef(1, e))
                                   + Prod(Change(2, x, y), Coef(2, e)) + Prod(Change(3, x, y), Coef(3, e))
  {
    Apart(e.p, x.a, y.a);
    Apart(e.q, x.b, y.b);
    Apart(e.r, x.c, y.c);
    Apart(e.s, x.d, y.d);
  }

  lemma Apart(c: real, x: real, y: real)
    ensures c * y - c * x == (y - x) * c
  {}

  lemma Shared(d: real, g: real, k: real, e: real)
    ensures Prod(d, g + Prod(k, e)) == Prod(d, g) + Prod(Prod(d, k), e)
  {}

  lemma GapMore(e: Eqn, k: real, g: Eqn, x: X4)
    ensures Gap(AddScaled(e, k, g), x) == Gap(e, x) + Prod(k, Gap(g, x))
  {
    GapAddScaled(e, k, g, x);
  }

  lemma PromiseTerm(d: real, j: nat, rows: seq<Eqn>, x: X4)
    requires rows != []
    ensures var front, e := rows[..|rows| - 1], rows[|rows| - 1];
            Prod(d, Gap(Normal(j, rows), x)) == Prod(d, Gap(Normal(j, front), x)) + Prod(Prod(d, Coef(j, e)), Gap(e, x))
  {
    hide Gap, Coef, Prod, AddScaled;
    var front, e := rows[..|rows| - 1], rows[|rows| - 1];
    GapMore(Normal(j, front), Coef(j, e), e, x);
    Shared(d, Gap(Normal(j, front), x), Coef(j, e), Gap(e, x));
  }

  lemma FourTimes(a: real, b: real, c: real, d: real, e: real)
    ensures Prod(a, e) + Prod(b, e) + Prod(c, e) + Prod(d, e) == Prod(a + b + c + d, e)
  {}

  lemma Tangent(gy: real, gx: real)
    ensures Sq(gy) >= Sq(gx) + 2.0 * Prod(gy - gx, gx)
  {
    var u := gy - gx;
    assert gy * gy == gx * gx + 2.0 * (u * gx) + u * u;
    assert u * u >= 0.0;
  }

  lemma {:induction false} MisfitGrows(rows: seq<Eqn>, x: X4, y: X4)
    ensures Misfit(rows, y) >= Misfit(rows, x) + 2.0 * Promise(rows, x, y)
    decreases |rows|
  {
    hide Gap, Coef, Prod, AddScaled, Sq, Change;
    if rows == [] {
      NoGap(x);
      Nothing(Change(0, x, y)); Nothing(Change(1, x, y)); Nothing(Change(2, x, y)); Nothing(Change(3, x, y));
    } else {
      var front, e := rows[..|rows| - 1], rows[|rows| - 1];
      MisfitGrows(front, x, y);
      PromiseTerm(Change(0, x, y), 0, rows, x);
      PromiseTerm(Change(1, x, y), 1, rows, x);
      PromiseTerm(Change(2, x, y), 2, rows, x);
      PromiseTerm(Change(3, x, y), 3, rows, x);
      hide Normal;
      FourTimes(Prod(Change(0, x, y), Coef(0, e)), Prod(Change(1, x, y), Coef(1, e)),
                Prod(Change(2, x, y), Coef(2, e)), Prod(Change(3, x, y), Coef(3, e)), Gap(e, x));
      GapDifference(e, x, y);
      Tangent(Gap(e, y), Gap(e, x));
    }
  }

  lemma Nothing(d: real)
    ensures Prod(d, 0.0) == 0.0
  {}

  /** A solution of the normal equations has the least sum of squared residuals of all. */
  lemma LeastSquares(rows: seq<Eqn>, x: X4, y: X4)
    requires Solves(NormalSystem(rows), x)
    ensures Misfit(rows, x) <= Misfit(rows, y)
  {
    hide Gap, Normal, Misfit, Prod, Change;
    var m := NormalSystem(rows);
    assert Gap(m[0], x) == 0.0 && Gap(m[1], x) == 0.0 && Gap(m[2], x) == 0.0 && Gap(m[3], x) == 0.0;
    Nothing(Change(0, x, y)); Nothing(Change(1, x, y)); Nothing(Change(2, x, y)); Nothing(Change(3, x, y));
    MisfitGrows(rows, x, y);
  }

  lemma NoGap(x: X4)
    ensures Gap(NO_EQN, x) == 0.0
  {}

  // ---------- the sphere ----------

  function SphereRow(p: V3): Eqn {
    Eqn(2.0 * p.x, 2.0 * p.y, 2.0 * p.z, 1.0, Dot(p, p))
  }

  function SphereRows(pts: seq<V3>): (rows: seq<Eqn>)
    ensures |rows| == |pts|
    ensures forall i :: 0 <= i < |rows| ==> rows[i] == SphereRow(pts[i])
  {
    seq(|pts|, i requires 0 <= i < |pts| => SphereRow(pts[i]))
  }

  predicate OnSphere(p: V3, c: V3, r: real) {
    Dot(Minus(p, c), Minus(p, c)) == r * r
  }

  predicate AllOnSphere(pts: seq<V3>, c: V3, r: real) {
    forall i :: 0 <= i < |pts| ==> OnSphere(pts[i], c, r)
  }

  /** A point on the sphere satisfies its linearised equation at the centre. */
  lemma SphereRowHolds(p: V3, c: V3, r: real)
    requires OnSphere(p, c, r)
    ensures Gap(SphereRow(p), X4(c.x, c.y, c.z, r * r - Dot(c, c))) == 0.0
  {
    SquareOfDifference(p.x, c.x);
    SquareOfDifference(p.y, c.y);
    SquareOfDifference(p.z, c.z);
  }

  lemma SquareOfDifference(a: real, b: real)
    ensures (a - b) * (a - b) == a * a - 2.0 * a * b + b * b
  {}

  /** The twelve sums of sphere_accum_t. */
  datatype Sums = Sums(sx: real, sy: real, sz: real, sxx: real, syy: real, szz: real,
                       sxy: real, sxz: real, syz: real, sxr: real, syr: real, szr: real)

  function Row0(a: Sums): Eqn { Eqn(4.0 * a.sxx, 4.0 * a.sxy, 4.0 * a.sxz, 2.0 * a.sx, 2.0 * a.sxr) }
  function Row1(a: Sums): Eqn { Eqn(4.0 * a.sxy, 4.0 * a.syy, 4.0 * a.syz, 2.0 * a.sy, 2.0 * a.syr) }
  function Row2(a: Sums): Eqn { Eqn(4.0 * a.sxz, 4.0 * a.syz, 4.0 * a.szz, 2.0 * a.sz, 2.0 * a.szr) }
  function Row3(a: Sums, n: nat): Eqn { Eqn(2.0 * a.sx, 2.0 * a.sy, 2.0 * a.sz, n as real, a.sxx + a.syy + a.szz) }

  /** The sums lay out the normal equations of the samples added, in whatever order they came. */
  ghost predicate Accounts(pts: seq<V3>, a: Sums) {
    && Normal(0, SphereRows(pts)) == Row0(a)
    && Normal(1, SphereRows(pts)) == Row1(a)
    && Normal(2, SphereRows(pts)) == Row2(a)
    && Normal(3, SphereRows(pts)) == Row3(a, |pts|)
  }

  lemma AccountsGrow(pts: seq<V3>, a: Sums, p: V3, xx: real, yy: real, zz: real, xy: real, xz: real, yz: real,
                     xr: real, yr: real, zr: real, r2: real)
    requires Accounts(pts, a) && r2 == Dot(p, p)
    requires xx == Prod(p.x, p.x) && yy == Prod(p.y, p.y) && zz == Prod(p.z, p.z)
    requires xy == Prod(p.x, p.y) && xz == Prod(p.x, p.z) && yz == Prod(p.y, p.z)
    requires xr == Prod(p.x, r2) && yr == Prod(p.y, r2) && zr == Prod(p.z, r2)
    ensures Accounts(pts + [p], Sums(a.sx + p.x, a.sy + p.y, a.sz + p.z, a.sxx + xx, a.syy + yy, a.szz + zz,
                                     a.sxy + xy, a.sxz + xz, a.syz + yz, a.sxr + xr, a.syr + yr, a.szr + zr))
  {
    hide Normal, AddScaled, Coef, SphereRow, SphereRows, Dot, Prod;
    RowsGrow(pts, p, 0);
    RowsGrow(pts, p, 1);
    RowsGrow(pts, p, 2);
    RowsGrow(pts, p, 3);
    SphereTermsXY(Row0(a), Row1(a), p, r2, xx, xy, xz, yy, yz, xr, yr);
    SphereTermsZ(Row2(a), Row3(a, |pts|), p, r2, xz, yz, zz, zr);
    DotIs(p, r2, xx, yy, zz);
  }

  /** sphere_accum_t: running sums, never the samples. */
  class Accum {
    var a: Sums
    var n: nat
    ghost var pts: seq<V3>

    ghost predicate Valid()
      reads this
    {
      n == |pts| && Accounts(pts, a)
    }

    constructor ()
      ensures Valid() && pts == []
    {
      a := Sums(0.0, 0.0, 0.0, 0.0, 0.0, 0.0, 0.0, 0.0, 0.0, 0.0, 0.0, 0.0);
      n, pts := 0, [];
    }

    /** sphere_add. */
    method Add(p: V3)
      requires Valid()
      modifies this
      ensures Valid() && pts == old(pts) + [p]
    {
      hide Accounts, Dot, Prod;
      var r2 := Dot(p, p);
      var xx, yy, zz := Prod(p.x, p.x), Prod(p.y, p.y), Prod(p.z, p.z);
      var xy, xz, yz := Prod(p.x, p.y), Prod(p.x, p.z), Prod(p.y, p.z);
      var xr, yr, zr := Prod(p.x, r2), Prod(p.y, r2), Prod(p.z, r2);
      AccountsGrow(pts, a, p, xx, yy, zz, xy, xz, yz, xr, yr, zr, r2);
      a := a.(sx := a.sx + p.x, sy := a.sy + p.y, sz := a.sz + p.z);
      a := a.(sxx := a.sxx + xx, syy := a.syy + yy, szz := a.szz + zz);
      a := a.(sxy := a.sxy + xy, sxz := a.sxz + xz, syz := a.syz + yz);
      a := a.(sxr := a.sxr + xr, syr := a.syr + yr, szr := a.szr + zr);
      n := n + 1;
      pts := pts + [p];
    }
  }

  lemma RowsGrow(pts: seq<V3>, p: V3, j: nat)
    ensures Normal(j, SphereRows(pts + [p])) == AddScaled(Normal(j, SphereRows(pts)), Coef(j, SphereRow(p)), SphereRow(p))
  {
    hide SphereRow, AddScaled, Coef;
    var rows := SphereRows(pts + [p]);
    assert rows[..|pts|] == SphereRows(pts);
  }

  lemma DotIs(p: V3, r2: real, xx: real, yy: real, zz: real)
    requires r2 == Dot(p, p) && xx == Prod(p.x, p.x) && yy == Prod(p.y, p.y) && zz == Prod(p.z, p.z)
    ensures r2 == xx + yy + zz
  {}

  lemma SphereTermsXY(e0: Eqn, e1: Eqn, p: V3, r2: real, xx: real, xy: real, xz: real, yy: real, yz: real, xr: real, yr: real)
    requires r2 == Dot(p, p) && xx == Prod(p.x, p.x) && xy == Prod(p.x, p.y) && xz == Prod(p.x, p.z) && yy == Prod(p.y, p.y) && yz == Prod(p.y, p.z)
    requires xr == Prod(p.x, r2) && yr == Prod(p.y, r2)
    ensures AddScaled(e0, Coef(0, SphereRow(p)), SphereRow(p))
         == Eqn(e0.p + 4.0 * xx, e0.q + 4.0 * xy, e0.r + 4.0 * xz, e0.s + 2.0 * p.x, e0.rhs + 2.0 * xr)
    ensures AddScaled(e1, Coef(1, SphereRow(p)), SphereRow(p))
         == Eqn(e1.p + 4.0 * xy, e1.q + 4.0 * yy, e1.r + 4.0 * yz, e1.s + 2.0 * p.y, e1.rhs + 2.0 * yr)
  {
    assert Prod(p.y, p.x) == xy by { TwiceTwice(p.x, p.y); }
    hide Dot, More, Prod;
    More4(e0.p, p.x, p.x, xx); More4(e0.q, p.x, p.y, xy); More4(e0.r, p.x, p.z, xz);
    MoreOne(e0.s, 2.0 * p.x); More2(e0.rhs, p.x, r2, xr);
    More4(e1.p, p.y, p.x, xy); More4(e1.q, p.y, p.y, yy); More4(e1.r, p.y, p.z, yz);
    MoreOne(e1.s, 2.0 * p.y); More2(e1.rhs, p.y, r2, yr);
  }

  lemma SphereTermsZ(e2: Eqn, e3: Eqn, p: V3, r2: real, xz: real, yz: real, zz: real, zr: real)
    requires r2 == Dot(p, p) && xz == Prod(p.x, p.z) && yz == Prod(p.y, p.z) && zz == Prod(p.z, p.z) && zr == Prod(p.z, r2)
    ensures AddScaled(e2, Coef(2, SphereRow(p)), SphereRow(p))
         == Eqn(e2.p + 4.0 * xz, e2.q + 4.0 * yz, e2.r + 4.0 * zz, e2.s + 2.0 * p.z, e2.rhs + 2.0 * zr)
    ensures AddScaled(e3, Coef(3, SphereRow(p)), SphereRow(p))
         == Eqn(e3.p + 2.0 * p.x, e3.q + 2.0 * p.y, e3.r + 2.0 * p.z, e3.s + 1.0, e3.rhs + r2)
  {
    assert Prod(p.z, p.x) == xz by { TwiceTwice(p.x, p.z); }
    assert Prod(p.z, p.y) == yz by { TwiceTwice(p.y, p.z); }
    hide Dot, More, Prod;
    More4(e2.p, p.z, p.x, xz); More4(e2.q, p.z, p.y, yz); More4(e2.r, p.z, p.z, zz);
    MoreOne(e2.s, 2.0 * p.z); More2(e2.rhs, p.z, r2, zr);
    MoreOne(e3.p, 2.0 * p.x); MoreOne(e3.q, 2.0 * p.y); MoreOne(e3.r, 2.0 * p.z);
    MoreOne(e3.s, 1.0); MoreOne(e3.rhs, r2);
  }

  lemma TwiceTwice(a: real, b: real)
    ensures (2.0 * a) * (2.0 * b) == 4.0 * (a * b) && a * b == b * a
  {}

  lemma TwiceOf(a: real, b: real)
    ensures (2.0 * a) * b == 2.0 * (a * b)
  {}

  /** The square root of a square. */
  lemma RootOfSquare(lib: Libm, r: real)
    requires lib.Valid() && r >= 0.0
    ensures lib.sqrt(r * r) == r
  {
    var q := lib.sqrt(r * r);
    SquareNonneg(r);
    assert q >= 0.0 && q * q == r * r;
    SquaresEqual(q, r);
  }

  lemma SquaresEqual(a: real, b: real)
    requires a >= 0.0 && b >= 0.0 && a * a == b * b
    ensures a == b
  {
    assert (a - b) * (a + b) == 0.0;
    if a + b != 0.0 { Cancel(a - b, 0.0, a + b); }
  }

  method PutRow(A: array2<real>, b: array<real>, i: nat, e: Eqn)
    requires A.Length0 == 4 && A.Length1 == 4 && b.Length == 4 && i < 4
    modifies A, b
    ensures Given(A, b) == old(Given(A, b))[i := e]
  {
    A[i, 0] := e.p;
    A[i, 1] := e.q;
    A[i, 2] := e.r;
    A[i, 3] := e.s;
    b[i] := e.rhs;
  }

  /** Normal equations laid out for gauss4. */
  method Solve4(e0: Eqn, e1: Eqn, e2: Eqn, e3: Eqn) returns (rc: int, x: X4)
    ensures rc == if Determined([e0, e1, e2, e3]) then 0 else -1
    ensures rc == 0 ==> forall y: X4 :: Solves([e0, e1, e2, e3], y) <==> y == x
  {
    hide Solves, Given, Determined;
    var A, b, v := new real[4, 4], new real[4], new real[4];
    GivenLength(A, b);
    PutRow(A, b, 0, e0);
    GivenLength(A, b);
    PutRow(A, b, 1, e1);
    GivenLength(A, b);
    PutRow(A, b, 2, e2);
    GivenLength(A, b);
    PutRow(A, b, 3, e3);
    GivenLength(A, b);
    assert Given(A, b) == [e0, e1, e2, e3];
    ghost var m := Given(A, b);
    rc := Gauss4(A, b, v);
    x := X4(v[0], v[1], v[2], v[3]);
    assert Given(A, b) == m;
  }

  lemma GivenLength(A: array2<real>, b: array<real>)
    requires A.Length0 == 4 && A.Length1 == 4 && b.Length == 4
    ensures |Given(A, b)| == 4
  {}

  /** If the samples all lie on some sphere, the fit's answer is that sphere. */
  ghost predicate Recovers(pts: seq<V3>, centre: V3, radius: real) {
    forall c: V3, r: real :: r >= 0.0 && AllOnSphere(pts, c, r) ==> c == centre && r == radius
  }

  function SphereSystem(pts: seq<V3>): System {
    NormalSystem(SphereRows(pts))
  }

  /** The squared radius a solution stands for, in `dims` dimensions. */
  function RadiusSq(y: X4, dims: nat): real {
    if dims == 3 then y.d + Sq(y.a) + Sq(y.b) + Sq(y.c) else y.c + Sq(y.a) + Sq(y.b)
  }

  /** What a fit needs: five samples, a pivot in every column, and a positive squared radius. */
  ghost predicate Fits(m: System, n: nat, dims: nat)
    requires |m| == 4
  {
    n >= 5 && Determined(m) && forall y: X4 :: Solves(m, y) ==> RadiusSq(y, dims) > 0.0
  }

  /** sphere_fit. */
  method SphereFit(lib: Libm, acc: Accum) returns (rc: int, centre: V3, radius: real)
    requires acc.Valid() && lib.Valid()
    ensures rc == if Fits(SphereSystem(acc.pts), |acc.pts|, 3) then 0 else -1
    ensures rc == 0 ==> Recovers(acc.pts, centre, radius)
    ensures rc == 0 ==> radius > 0.0
    ensures rc == 0 ==>
      Solves(SphereSystem(acc.pts), X4(centre.x, centre.y, centre.z, Sq(radius) - Sq(centre.x) - Sq(centre.y) - Sq(centre.z)))
  {
    hide Solves, Normal, Row0, Row1, Row2, Row3, Determined;
    centre, radius := ORIGIN, 0.0;
    if acc.n < 5 { return -1, centre, radius; }
    var sol;
    rc, sol := Solve4(Row0(acc.a), Row1(acc.a), Row2(acc.a), Row3(acc.a, acc.n));
    if rc != 0 { return -1, centre, radius; }
    centre := V3(sol.a, sol.b, sol.c);
    var r2 := sol.d + sol.a * sol.a + sol.b * sol.b + sol.c * sol.c;
    assert Solves(SphereSystem(acc.pts), sol) && r2 == RadiusSq(sol, 3);
    if r2 <= 0.0 { return -1, centre, radius; }
    radius := lib.sqrt(r2);
    PositiveRoot(radius, r2);
    assert X4(centre.x, centre.y, centre.z, Sq(radius) - Sq(centre.x) - Sq(centre.y) - Sq(centre.z)) == sol;
    forall c: V3, r: real | r >= 0.0 && AllOnSphere(acc.pts, c, r) ensures c == centre && r == radius {
      TrueSphere(lib, acc.pts, c, r, sol, r2);
    }
  }

  lemma PositiveRoot(r: real, r2: real)
    requires r >= 0.0 && r * r == r2 && r2 > 0.0
    ensures r > 0.0 && Sq(r) == r2
  {}

  /** The true sphere satisfies the normal equations, so it is what their one solution gives back. */
  lemma TrueSphere(lib: Libm, pts: seq<V3>, c: V3, r: real, sol: X4, r2: real)
    requires lib.Valid() && r >= 0.0 && AllOnSphere(pts, c, r)
    requires var rows := SphereRows(pts);
             forall y: X4 :: Solves([Normal(0, rows), Normal(1, rows), Normal(2, rows), Normal(3, rows)], y) <==> y == sol
    requires r2 == sol.d + sol.a * sol.a + sol.b * sol.b + sol.c * sol.c
    ensures c == V3(sol.a, sol.b, sol.c) && r == lib.sqrt(r2)
  {
    hide Normal, OnSphere, SphereRow, Gap;
    var rows := SphereRows(pts);
    var x := X4(c.x, c.y, c.z, r * r - Dot(c, c));
    forall i | 0 <= i < |rows| ensures Gap(rows[i], x) == 0.0 { SphereRowHolds(pts[i], c, r); }
    NormalHolds(0, rows, x);
    NormalHolds(1, rows, x);
    NormalHolds(2, rows, x);
    NormalHolds(3, rows, x);
    assert Solves([Normal(0, rows), Normal(1, rows), Normal(2, rows), Normal(3, rows)], x);
    assert sol == x;
    assert r2 == r * r;
    RootOfSquare(lib, r);
  }

  // ---------- the circle ----------

  function CircleRow(x: real, y: real): Eqn {
    Eqn(2.0 * x, 2.0 * y, 1.0, 0.0, x * x + y * y)
  }

  function CircleRows(b: seq<V3>, mx: real, my: real): (rows: seq<Eqn>)
    ensures |rows| == |b|
    ensures forall i :: 0 <= i < |rows| ==> rows[i] == CircleRow(b[i].x - mx, b[i].y - my)
  {
    seq(|b|, i requires 0 <= i < |b| => CircleRow(b[i].x - mx, b[i].y - my))
  }

  predicate OnCircle(p: V3, cx: real, cy: real, r: real) {
    (p.x - cx) * (p.x - cx) + (p.y - cy) * (p.y - cy) == r * r
  }

  predicate AllOnCircle(b: seq<V3>, cx: real, cy: real, r: real) {
    forall i :: 0 <= i < |b| ==> OnCircle(b[i], cx, cy, r)
  }

  /** A point of the circle, both moved by (mx, my), satisfies its linearised equation. */
  lemma Recentred(p: V3, x: real, y: real, r: real, mx: real, my: real)
    requires OnCircle(p, x, y, r)
    ensures ((p.x - mx) - (x - mx)) * ((p.x - mx) - (x - mx)) + ((p.y - my) - (y - my)) * ((p.y - my) - (y - my)) == r * r
  {
    assert (p.x - mx) - (x - mx) == p.x - x && (p.y - my) - (y - my) == p.y - y;
  }

  lemma CircleRowHolds(x: real, y: real, a: real, b: real, r: real)
    requires (x - a) * (x - a) + (y - b) * (y - b) == r * r
    ensures Gap(CircleRow(x, y), X4(a, b, r * r - a * a - b * b, 0.0)) == 0.0
  {
    SquareOfDifference(x, a);
    SquareOfDifference(y, b);
  }

  function TotalX(b: seq<V3>): real {
    if b == [] then 0.0 else TotalX(b[..|b| - 1]) + b[|b| - 1].x
  }

  function TotalY(b: seq<V3>): real {
    if b == [] then 0.0 else TotalY(b[..|b| - 1]) + b[|b| - 1].y
  }

  /** The normal equations of a circle through the horizontal parts, about their mean. */
  function CircleSystem(b: seq<V3>): System {
    if b == [] then [NO_EQN, NO_EQN, NO_EQN, PAD]
    else
      var rows := CircleRows(b, TotalX(b) / |b| as real, TotalY(b) / |b| as real);
      [Normal(0, rows), Normal(1, rows), Normal(2, rows), PAD]
  }

  /** The mean of the horizontal components. */
  method HorizontalMean(b: seq<V3>) returns (mx: real, my: real)
    requires |b| > 0
    ensures mx == TotalX(b) / |b| as real && my == TotalY(b) / |b| as real
  {
    mx, my := 0.0, 0.0;
    for i := 0 to |b|
      invariant mx == TotalX(b[..i]) && my == TotalY(b[..i])
    {
      assert b[..i + 1][..i] == b[..i];
      mx, my := mx + b[i].x, my + b[i].y;
    }
    assert b[..|b|] == b;
    mx, my := mx / |b| as real, my / |b| as real;
  }

  /** The sums circle_fit takes about the mean. */
  datatype Flat = Flat(sxx: real, sxy: real, syy: real, sx: real, sy: real, sxr: real, syr: real, sr: real)

  function Flat0(a: Flat): Eqn { Eqn(4.0 * a.sxx, 4.0 * a.sxy, 2.0 * a.sx, 0.0, 2.0 * a.sxr) }
  function Flat1(a: Flat): Eqn { Eqn(4.0 * a.sxy, 4.0 * a.syy, 2.0 * a.sy, 0.0, 2.0 * a.syr) }
  function Flat2(a: Flat, n: nat): Eqn { Eqn(2.0 * a.sx, 2.0 * a.sy, n as real, 0.0, a.sr) }

  const PAD := Eqn(0.0, 0.0, 0.0, 1.0, 0.0)

  ghost predicate FlatAccounts(rows: seq<Eqn>, a: Flat) {
    Normal(0, rows) == Flat0(a) && Normal(1, rows) == Flat1(a) && Normal(2, rows) == Flat2(a, |rows|)
  }

  lemma FlatGrow(rows: seq<Eqn>, a: Flat, x: real, y: real, xx: real, xy: real, yy: real, r2: real, xr: real, yr: real)
    requires FlatAccounts(rows, a) && xx == Prod(x, x) && xy == Prod(x, y) && yy == Prod(y, y) && r2 == xx + yy
    requires xr == Prod(x, r2) && yr == Prod(y, r2)
    ensures FlatAccounts(rows + [CircleRow(x, y)],
                         Flat(a.sxx + xx, a.sxy + xy, a.syy + yy, a.sx + x, a.sy + y, a.sxr + xr, a.syr + yr, a.sr + r2))
  {
    NormalSnoc(rows, CircleRow(x, y), 0);
    NormalSnoc(rows, CircleRow(x, y), 1);
    NormalSnoc(rows, CircleRow(x, y), 2);
    TwiceTwice(x, x); TwiceTwice(x, y); TwiceTwice(y, x); TwiceTwice(y, y);
    TwiceOf(x, r2); TwiceOf(y, r2);
    hide Normal;
    FlatTerms(Flat0(a), Flat1(a), Flat2(a, |rows|), x, y, xx, xy, yy, r2, xr, yr);
  }

  lemma FlatTerms(e0: Eqn, e1: Eqn, e2: Eqn, x: real, y: real, xx: real, xy: real, yy: real, r2: real, xr: real, yr: real)
    requires xx == Prod(x, x) && xy == Prod(x, y) && yy == Prod(y, y) && r2 == xx + yy && xr == Prod(x, r2) && yr == Prod(y, r2)
    ensures AddScaled(e0, Coef(0, CircleRow(x, y)), CircleRow(x, y))
         == Eqn(e0.p + 4.0 * xx, e0.q + 4.0 * xy, e0.r + 2.0 * x, e0.s, e0.rhs + 2.0 * xr)
    ensures AddScaled(e1, Coef(1, CircleRow(x, y)), CircleRow(x, y))
         == Eqn(e1.p + 4.0 * xy, e1.q + 4.0 * yy, e1.r + 2.0 * y, e1.s, e1.rhs + 2.0 * yr)
    ensures AddScaled(e2, Coef(2, CircleRow(x, y)), CircleRow(x, y))
         == Eqn(e2.p + 2.0 * x, e2.q + 2.0 * y, e2.r + 1.0, e2.s, e2.rhs + r2)
  {
    assert Prod(y, x) == xy by { TwiceTwice(x, y); }
    hide More, Prod;
    More4(e0.p, x, x, xx); More4(e0.q, x, y, xy); More2(e0.rhs, x, r2, xr); MoreOne(e0.r, 2.0 * x);
    More4(e1.p, y, x, xy); More4(e1.q, y, y, yy); More2(e1.rhs, y, r2, yr); MoreOne(e1.r, 2.0 * y);
    MoreOne(e0.s, 2.0 * x); MoreOne(e1.s, 2.0 * y); MoreOne(e2.s, 1.0);
    MoreOne(e2.p, 2.0 * x); MoreOne(e2.q, 2.0 * y); MoreOne(e2.r, 1.0); MoreOne(e2.rhs, r2);
    RowSquare(x, y, xx, yy, r2);
  }

  lemma RowSquare(x: real, y: real, xx: real, yy: real, r2: real)
    requires xx == Prod(x, x) && yy == Prod(y, y) && r2 == xx + yy
    ensures CircleRow(x, y).rhs == r2
  {}

  lemma More4(a: real, x: real, y: real, xy: real)
    requires xy == Prod(x, y)
    ensures More(a, 2.0 * x, 2.0 * y) == a + 4.0 * xy
  {
    TwiceTwice(x, y);
  }

  lemma More2(a: real, x: real, r: real, xr: real)
    requires xr == Prod(x, r)
    ensures More(a, 2.0 * x, r) == a + 2.0 * xr
  {
    TwiceOf(x, r);
  }

  lemma MoreOne(a: real, k: real)
    ensures More(a, k, 1.0) == a + k && More(a, 1.0, k) == a + k && More(a, k, 0.0) == a
  {}

  lemma NormalSnoc(rows: seq<Eqn>, row: Eqn, j: nat)
    ensures Normal(j, rows + [row]) == AddScaled(Normal(j, rows), Coef(j, row), row)
  {
    hide AddScaled, Coef;
    assert (rows + [row])[..|rows|] == rows;
  }

  /** If the samples' horizontal parts all lie on some circle, the fit's answer is that circle. */
  ghost predicate RecoversCircle(b: seq<V3>, cx: real, cy: real, radius: real) {
    forall x, y, r: real :: r >= 0.0 && AllOnCircle(b, x, y, r) ==> x == cx && y == cy && r == radius
  }

  /** circle_fit. */
  method CircleFit(lib: Libm, b: seq<V3>) returns (rc: int, cx: real, cy: real, radius: real)
    requires lib.Valid()
    ensures rc == if Fits(CircleSystem(b), |b|, 2) then 0 else -1
    ensures rc == 0 ==> RecoversCircle(b, cx, cy, radius)
    ensures rc == 0 ==> radius > 0.0 && exists p: X4 ::
      Solves(CircleSystem(b), p) && Sq(radius) == RadiusSq(p, 2)
      && cx == p.a + TotalX(b) / |b| as real && cy == p.b + TotalY(b) / |b| as real
  {
    hide Solves, Normal, Determined, TotalX, TotalY, CircleSystem, Flat0, Flat1, Flat2, Prod, FlatAccounts, CircleRow;
    cx, cy, radius := 0.0, 0.0, 0.0;
    if |b| < 5 { return -1, cx, cy, radius; }
    var mx, my := HorizontalMean(b);
    var a := Flat(0.0, 0.0, 0.0, 0.0, 0.0, 0.0, 0.0, 0.0);
    FlatNone();
    assert CircleRows(b, mx, my)[..0] == [];
    for i := 0 to |b|
      invariant FlatAccounts(CircleRows(b, mx, my)[..i], a)
    {
      var x, y := b[i].x - mx, b[i].y - my;
      var xx, yy := Prod(x, x), Prod(y, y);
      var r2 := xx + yy;
      FlatGrow(CircleRows(b, mx, my)[..i], a, x, y, xx, Prod(x, y), yy, r2, Prod(x, r2), Prod(y, r2));
      assert CircleRows(b, mx, my)[..i + 1] == CircleRows(b, mx, my)[..i] + [CircleRow(x, y)];
      a := Flat(a.sxx + xx, a.sxy + Prod(x, y), a.syy + yy, a.sx + x, a.sy + y, a.sxr + Prod(x, r2), a.syr + Prod(y, r2), a.sr + r2);
    }
    assert CircleRows(b, mx, my)[..|b|] == CircleRows(b, mx, my);
    FlatSystem(b, mx, my, a);
    var p;
    rc, p := Solve4(Flat0(a), Flat1(a), Flat2(a, |b|), PAD);
    if rc != 0 { return -1, cx, cy, radius; }
    var r2 := p.c + p.a * p.a + p.b * p.b;
    assert Solves(CircleSystem(b), p) && r2 == RadiusSq(p, 2);
    if r2 <= 0.0 { return -1, cx, cy, radius; }
    cx, cy, radius := p.a + mx, p.b + my, lib.sqrt(r2);
    PositiveRoot(radius, r2);
    forall x, y, r: real | r >= 0.0 && AllOnCircle(b, x, y, r) ensures x == cx && y == cy && r == radius {
      TrueCircle(lib, b, mx, my, x, y, r, a, p, r2);
    }
  }

  lemma FlatSystem(b: seq<V3>, mx: real, my: real, a: Flat)
    requires b != [] && mx == TotalX(b) / |b| as real && my == TotalY(b) / |b| as real
    requires FlatAccounts(CircleRows(b, mx, my), a)
    ensures CircleSystem(b) == [Flat0(a), Flat1(a), Flat2(a, |b|), PAD]
  {
    hide Normal, Flat0, Flat1, Flat2, CircleRow, TotalX, TotalY;
  }

  lemma FlatNone()
    ensures FlatAccounts([], Flat(0.0, 0.0, 0.0, 0.0, 0.0, 0.0, 0.0, 0.0))
  {}

  lemma TrueCircle(lib: Libm, b: seq<V3>, mx: real, my: real, x: real, y: real, r: real, a: Flat, p: X4, r2: real)
    requires lib.Valid() && r >= 0.0 && AllOnCircle(b, x, y, r) && FlatAccounts(CircleRows(b, mx, my), a)
    requires forall z: X4 :: Solves([Flat0(a), Flat1(a), Flat2(a, |b|), PAD], z) <==> z == p
    requires r2 == p.c + p.a * p.a + p.b * p.b
    ensures x == p.a + mx && y == p.b + my && r == lib.sqrt(r2)
  {
    hide Normal, CircleRow, Gap, Flat0, Flat1, Flat2, OnCircle;
    var rows := CircleRows(b, mx, my);
    var u, v := x - mx, y - my;
    var z := X4(u, v, r * r - u * u - v * v, 0.0);
    forall i | 0 <= i < |rows| ensures Gap(rows[i], z) == 0.0 {
      assert OnCircle(b[i], x, y, r);
      Recentred(b[i], x, y, r, mx, my);
      CircleRowHolds(b[i].x - mx, b[i].y - my, u, v, r);
    }
    NormalHolds(0, rows, z);
    NormalHolds(1, rows, z);
    NormalHolds(2, rows, z);
    PadHolds(z);
    assert Solves([Flat0(a), Flat1(a), Flat2(a, |b|), PAD], z);
    assert p == z;
    hide Solves;
    assert r2 == r * r;
    RootOfSquare(lib, r);
  }

  lemma PadHolds(z: X4)
    requires z.d == 0.0
    ensures Gap(PAD, z) == 0.0
  {}

  // ---------- the soft-iron block ----------

  /** A symmetric 2×2 block. */
  datatype Sym2 = Sym2(a: real, b: real, c: real)

  function Form2(p: Sym2, x: real, y: real): real {
    p.a * (x * x) + 2.0 * (p.b * (x * y)) + p.c * (y * y)
  }

  /** A sample about the centre, its vertical scaled. */
  function About(p: V3, c: V3, sz: real): V3 {
    V3(p.x - c.x, p.y - c.y, sz * (p.z - c.z))
  }

  function IronRow(d: V3, radius: real): Eqn {
    Eqn(d.x * d.x, 2.0 * d.x * d.y, d.y * d.y, 0.0, radius * radius - d.z * d.z)
  }

  function IronRows(b: seq<V3>, c: V3, radius: real, sz: real): (rows: seq<Eqn>)
    ensures |rows| == |b|
    ensures forall i :: 0 <= i < |rows| ==> rows[i] == IronRow(About(b[i], c, sz), radius)
  {
    seq(|b|, i requires 0 <= i < |b| => IronRow(About(b[i], c, sz), radius))
  }

  /** The horizontal parts have, under P, the lengths the sphere leaves them. */
  predicate AllOnEllipsoid(b: seq<V3>, c: V3, radius: real, sz: real, p: Sym2) {
    forall i :: 0 <= i < |b| ==>
      var d := About(b[i], c, sz); Form2(p, d.x, d.y) == radius * radius - d.z * d.z
  }

  lemma IronRowHolds(d: V3, radius: real, p: Sym2)
    requires Form2(p, d.x, d.y) == radius * radius - d.z * d.z
    ensures Gap(IronRow(d, radius), X4(p.a, p.b, p.c, 0.0)) == 0.0
  {}

  /** The square of a symmetric block. */
  function Square2(s: Sym2): Sym2 {
    Sym2(s.a * s.a + s.b * s.b, s.a * s.b + s.b * s.c, s.b * s.b + s.c * s.c)
  }

  lemma ShareProduct(u: real, v: real, t: real, T: real, A: real, B: real)
    requires t != 0.0 && u == A / t && v == B / t && T == t * t
    ensures (u * v) * T == A * B
  {
    assert A == u * t && B == v * t;
    Regroup4(u, v, t);
  }

  lemma Regroup4(u: real, v: real, t: real)
    ensures (u * v) * (t * t) == (u * t) * (v * t)
  {}

  lemma SumShares(p: real, q: real, T: real, x: real, y: real, k: real)
    requires T != 0.0 && p * T == x && q * T == y && x + y == k * T
    ensures p + q == k
  {
    assert (p + q) * T == p * T + q * T;
    Cancel(p + q, k, T);
  }

  /** √P of a positive definite P is (P + √det·I) / √(tr P + 2√det), by Cayley and Hamilton. */
  lemma RootSquares(p: Sym2, sd: real, t: real)
    requires sd * sd == p.a * p.c - p.b * p.b && t * t == p.a + p.c + 2.0 * sd && t != 0.0
    ensures Square2(Sym2((p.a + sd) / t, p.b / t, (p.c + sd) / t)) == p
  {
    var A, B, C, T := p.a + sd, p.b, p.c + sd, t * t;
    CayleyHamilton(p, sd);
    TwoShares(A, A, B, B, t, T, p.a);
    TwoShares(A, B, B, C, t, T, p.b);
    TwoShares(B, B, C, C, t, T, p.c);
  }

  lemma TwoShares(x: real, y: real, z: real, w: real, t: real, T: real, k: real)
    requires t != 0.0 && T == t * t && x * y + z * w == k * T
    ensures (x / t) * (y / t) + (z / t) * (w / t) == k
  {
    SqPositive(t);
    assert T == Sq(t);
    ShareProduct(x / t, y / t, t, T, x, y);
    ShareProduct(z / t, w / t, t, T, z, w);
    SumShares((x / t) * (y / t), (z / t) * (w / t), T, x * y, z * w, k);
  }

  lemma CayleyHamilton(p: Sym2, sd: real)
    requires sd * sd == p.a * p.c - p.b * p.b
    ensures var A, B, C, T := p.a + sd, p.b, p.c + sd, p.a + p.c + 2.0 * sd;
            A * A + B * B == p.a * T && A * B + B * C == p.b * T && B * B + C * C == p.c * T
  {
    ExpandSquare(p.a, sd);
    ExpandSquare(p.c, sd);
    ExpandTimes(p.a, p.a, p.c, sd);
    ExpandTimes(p.b, p.a, p.c, sd);
    ExpandTimes(p.c, p.a, p.c, sd);
    assert p.b * (p.a + sd) + p.b * (p.c + sd) == p.b * p.a + p.b * p.c + 2.0 * (p.b * sd);
  }

  lemma ExpandSquare(a: real, s: real)
    ensures (a + s) * (a + s) == a * a + 2.0 * (a * s) + s * s
  {}

  lemma ExpandTimes(k: real, a: real, c: real, s: real)
    ensures k * (a + c + 2.0 * s) == k * a + k * c + 2.0 * (k * s)
  {}

  /** If the samples all lie on one ellipsoid, the block fitted is its own. */
  ghost predicate RecoversBlock(b: seq<V3>, c: V3, radius: real, sz: real, p: Sym2) {
    forall q: Sym2 :: AllOnEllipsoid(b, c, radius, sz, q) ==> q == p
  }

  /** One sample's observation added to the first three normal equations. */
  method Accumulate(e0: Eqn, e1: Eqn, e2: Eqn, row: Eqn) returns (f0: Eqn, f1: Eqn, f2: Eqn)
    ensures f0 == AddScaled(e0, Coef(0, row), row) && f1 == AddScaled(e1, Coef(1, row), row) && f2 == AddScaled(e2, Coef(2, row), row)
  {
    f0 := AddScaled(e0, row.p, row);
    f1 := AddScaled(e1, row.q, row);
    f2 := AddScaled(e2, row.r, row);
  }

  function IronSystem(b: seq<V3>, c: V3, radius: real, sz: real): System {
    var rows := IronRows(b, c, radius, sz);
    [Normal(0, rows), Normal(1, rows), Normal(2, rows), PAD]
  }

  /** Every solution of the system is a positive definite block. */
  ghost predicate PositiveDefinite(m: System) {
    forall y: X4 :: Solves(m, y) ==> y.a > 0.0 && y.a * y.c - y.b * y.b > 0.0
  }

  /** softiron_on_sphere: the block S2 whose square is the fitted P. */
  method SoftIronOnSphere(lib: Libm, b: seq<V3>, c: V3, radius: real, sz: real) returns (rc: int, s2: Sym2)
    requires lib.Valid()
    ensures rc == 0 <==> Determined(IronSystem(b, c, radius, sz)) && PositiveDefinite(IronSystem(b, c, radius, sz))
    ensures rc != 0 ==> rc == -1
    ensures rc == 0 ==> RecoversBlock(b, c, radius, sz, Square2(s2))
    ensures rc == 0 ==> s2.a > 0.0 && s2.a * s2.c - s2.b * s2.b > 0.0
    ensures rc == 0 ==> Solves(IronSystem(b, c, radius, sz), X4(Square2(s2).a, Square2(s2).b, Square2(s2).c, 0.0))
  {
    hide Solves, Normal, Determined, AddScaled, IronRow, Coef, Square2;
    s2 := Sym2(1.0, 0.0, 1.0);
    var e0, e1, e2 := NO_EQN, NO_EQN, NO_EQN;
    ghost var rows := IronRows(b, c, radius, sz);
    assert rows[..0] == [];
    NormalNone();
    for i := 0 to |b|
      invariant e0 == Normal(0, rows[..i]) && e1 == Normal(1, rows[..i]) && e2 == Normal(2, rows[..i])
    {
      var row := IronRow(About(b[i], c, sz), radius);
      NormalSnoc(rows[..i], row, 0);
      NormalSnoc(rows[..i], row, 1);
      NormalSnoc(rows[..i], row, 2);
      assert rows[..i + 1] == rows[..i] + [row];
      e0, e1, e2 := Accumulate(e0, e1, e2, row);
    }
    assert rows[..|b|] == rows;
    var x;
    rc, x := Solve4(e0, e1, e2, PAD);
    if rc != 0 { return -1, s2; }
    assert Solves(IronSystem(b, c, radius, sz), x);
    PadZero(IronSystem(b, c, radius, sz), x);
    var p := Sym2(x.a, x.b, x.c);
    var det := p.a * p.c - p.b * p.b;
    if p.a <= 0.0 || det <= 0.0 { return -1, s2; }
    forall q: Sym2 | AllOnEllipsoid(b, c, radius, sz, q) ensures q == p { TrueBlock(b, c, radius, sz, q, x); }
    s2 := RootBlock(lib, p, det);
  }

  lemma PadZero(m: System, x: X4)
    requires |m| == 4 && m[3] == PAD && Solves(m, x)
    ensures x.d == 0.0
  {
    assert Gap(m[3], x) == 0.0;
  }

  /** The square root of a positive definite block, itself positive definite. */
  method RootBlock(lib: Libm, p: Sym2, det: real) returns (s2: Sym2)
    requires lib.Valid() && det == p.a * p.c - p.b * p.b && p.a > 0.0 && det > 0.0
    ensures Square2(s2) == p && s2.a > 0.0 && s2.a * s2.c - s2.b * s2.b > 0.0
  {
    hide Square2;
    var sd := lib.sqrt(det);
    OtherDiagonal(p.a, p.b, p.c, det);
    var tr := p.a + p.c + 2.0 * sd;
    var t := lib.sqrt(tr);
    assert sd > 0.0 && tr > 0.0 && t > 0.0;
    RootSquares(p, sd, t);
    s2 := Sym2((p.a + sd) / t, p.b / t, (p.c + sd) / t);
    RootPositive(p, sd, t);
  }

  lemma OtherDiagonal(a: real, b: real, c: real, det: real)
    requires a > 0.0 && det == a * c - b * b && det > 0.0
    ensures c > 0.0
  {
    SquareNonneg(b);
    if c <= 0.0 { NonPositive(a, c); }
  }

  lemma NonPositive(a: real, c: real)
    requires a > 0.0 && c <= 0.0
    ensures a * c <= 0.0
  {}

  lemma RootPositive(p: Sym2, sd: real, t: real)
    requires sd > 0.0 && t > 0.0 && p.a > 0.0 && p.c > 0.0 && sd * sd == p.a * p.c - p.b * p.b && t * t == p.a + p.c + 2.0 * sd
    ensures (p.a + sd) / t > 0.0
    ensures ((p.a + sd) / t) * ((p.c + sd) / t) - (p.b / t) * (p.b / t) > 0.0
  {
    var A, B, C, T := p.a + sd, p.b, p.c + sd, t * t;
    ShareProduct(A / t, C / t, t, T, A, C);
    ShareProduct(B / t, B / t, t, T, B, B);
    ExpandTimes(sd, p.a, p.c, sd);
    assert A * C - B * B == sd * T by { CrossExpand(p.a, p.c, sd); }
    Difference((A / t) * (C / t), (B / t) * (B / t), T, A * C, B * B, sd);
    PositiveQuotient(A, t);
  }

  lemma CrossExpand(a: real, c: real, s: real)
    ensures (a + s) * (c + s) == a * c + s * a + s * c + s * s
  {}

  lemma Difference(p: real, q: real, T: real, x: real, y: real, k: real)
    requires T > 0.0 && p * T == x && q * T == y && x - y == k * T && k > 0.0
    ensures p - q > 0.0
  {
    assert (p - q) * T == p * T - q * T;
    Cancel(p - q, k, T);
  }

  lemma PositiveQuotient(a: real, t: real)
    requires a > 0.0 && t > 0.0
    ensures a / t > 0.0
  {}

  lemma NormalNone()
    ensures Normal(0, []) == NO_EQN && Normal(1, []) == NO_EQN && Normal(2, []) == NO_EQN
  {}

  lemma TrueBlock(b: seq<V3>, c: V3, radius: real, sz: real, q: Sym2, x: X4)
    requires AllOnEllipsoid(b, c, radius, sz, q)
    requires var rows := IronRows(b, c, radius, sz);
             forall z: X4 :: Solves([Normal(0, rows), Normal(1, rows), Normal(2, rows), PAD], z) <==> z == x
    ensures q == Sym2(x.a, x.b, x.c)
  {
    hide Normal, IronRow, Gap, Form2, About;
    var rows := IronRows(b, c, radius, sz);
    var z := X4(q.a, q.b, q.c, 0.0);
    forall i | 0 <= i < |rows| ensures Gap(rows[i], z) == 0.0 { IronRowHolds(About(b[i], c, sz), radius, q); }
    NormalHolds(0, rows, z);
    NormalHolds(1, rows, z);
    NormalHolds(2, rows, z);
    PadHolds(z);
    assert Solves([Normal(0, rows), Normal(1, rows), Normal(2, rows), PAD], z);
  }
}
