/**
 The 3-vector, quaternion and 3×3 helpers of src/fusion.c over exact reals, and the
 libm functions it calls.  `Libm` carries those functions as values; `Valid` is what
 the proofs need of them and no more.
 */
module FusionMath {

  datatype Libm = Libm(sqrt: real -> real, sin: real -> real, cos: real -> real,
                       exp: real -> real, asin: real -> real, atan2: (real, real) -> real)
  {
    ghost predicate Valid() {
      && (forall x: real :: x >= 0.0 ==> sqrt(x) >= 0.0 && sqrt(x) * sqrt(x) == x)
      && (forall t: real :: sin(t) * sin(t) + cos(t) * cos(t) == 1.0)
      && (forall x: real :: x <= 0.0 ==> 0.0 < exp(x) <= 1.0)
    }
  }

  // ---------- vectors ----------

  datatype V3 = V3(x: real, y: real, z: real)

  const ORIGIN := V3(0.0, 0.0, 0.0)

  function Dot(a: V3, b: V3): real {
    a.x * b.x + a.y * b.y + a.z * b.z
  }

  function Plus(a: V3, b: V3): V3 {
    V3(a.x + b.x, a.y + b.y, a.z + b.z)
  }

  function Minus(a: V3, b: V3): V3 {
    V3(a.x - b.x, a.y - b.y, a.z - b.z)
  }

  function Times(s: real, a: V3): V3 {
    V3(s * a.x, s * a.y, s * a.z)
  }

  function Cross(a: V3, b: V3): V3 {
    V3(a.y * b.z - a.z * b.y, a.z * b.x - a.x * b.z, a.x * b.y - a.y * b.x)
  }

  function Norm(lib: Libm, v: V3): real {
    lib.sqrt(Dot(v, v))
  }

  function Abs(x: real): real {
    if x < 0.0 then -x else x
  }

  /** Squares by name: proofs about sums of quotients hide what a square is. */
  function Sq(x: real): real {
    x * x
  }

  lemma SqProduct(a: real, n: real, p: real)
    requires p == a * n
    ensures Sq(p) == Sq(a) * Sq(n)
  {}

  /** A product by name. */
  function Prod(x: real, y: real): real {
    x * y
  }

  /** A quotient by name. */
  function Over(x: real, y: real): real
    requires y != 0.0
  {
    x / y
  }

  function PositiveProduct(a: real, b: real): (m: real)
    requires a > 0.0 && b > 0.0
    ensures m > 0.0
  {
    a * b
  }

  lemma SqShare(x: real, n: real)
    requires n != 0.0
    ensures Sq(x / n) * Sq(n) == Sq(x)
  {
    hide Sq;
    SqProduct(x / n, n, x);
  }

  lemma SqPositive(n: real)
    requires n != 0.0
    ensures Sq(n) > 0.0
  {
    var m := if n < 0.0 then PositiveProduct(-n, -n) else PositiveProduct(n, n);
    assert Sq(n) == m;
  }

  lemma SquareNonneg(x: real)
    ensures x * x >= 0.0
  {}

  lemma DotSelfNonneg(v: V3)
    ensures Dot(v, v) >= 0.0
  {
    SquareNonneg(v.x);
    SquareNonneg(v.y);
    SquareNonneg(v.z);
  }

  lemma NormLaw(lib: Libm, v: V3)
    requires lib.Valid()
    ensures Norm(lib, v) >= 0.0
    ensures Norm(lib, v) * Norm(lib, v) == Dot(v, v)
  {
    DotSelfNonneg(v);
  }

  /** Dividing a nonzero vector by its length leaves a unit vector. */
  lemma UnitOver(v: V3, n: real)
    requires n != 0.0 && n * n == Dot(v, v)
    ensures Dot(V3(v.x / n, v.y / n, v.z / n), V3(v.x / n, v.y / n, v.z / n)) == 1.0
  {
    assert Sq(n) == Sq(v.x) + Sq(v.y) + Sq(v.z) + Sq(0.0);
    UnitQuotients(n, v.x, v.y, v.z, 0.0);
    assert Sq(0.0 / n) == 0.0;
  }

  lemma UnitQuotients(n: real, x: real, y: real, z: real, w: real)
    requires n != 0.0 && Sq(n) == Sq(x) + Sq(y) + Sq(z) + Sq(w)
    ensures Sq(x / n) + Sq(y / n) + Sq(z / n) + Sq(w / n) == 1.0
  {
    hide Sq;
    SqShare(x, n);
    SqShare(y, n);
    SqShare(z, n);
    SqShare(w, n);
    SqPositive(n);
    SumOfShares(Sq(x / n), Sq(y / n), Sq(z / n), Sq(w / n), Sq(n), Sq(x), Sq(y), Sq(z), Sq(w));
  }

  lemma SumOfShares(a: real, b: real, c: real, d: real, m: real, p: real, q: real, r: real, s: real)
    requires m != 0.0 && a * m == p && b * m == q && c * m == r && d * m == s
    requires p + q + r + s == m
    ensures a + b + c + d == 1.0
  {
    assert (a + b + c + d - 1.0) * m == 0.0;
  }

  lemma Cancel(a: real, b: real, c: real)
    requires c != 0.0 && a * c == b * c
    ensures a == b
  {
    assert (a - b) * c == 0.0;
  }

  // ---------- quaternions ----------

  datatype Quat = Quat(w: real, x: real, y: real, z: real)

  function NormSq(q: Quat): real {
    q.w * q.w + q.x * q.x + q.y * q.y + q.z * q.z
  }

  predicate Unit(q: Quat) {
    NormSq(q) == 1.0
  }

  /** q_mul: the Hamilton product. */
  function QMul(a: Quat, b: Quat): Quat {
    Quat(a.w * b.w - a.x * b.x - a.y * b.y - a.z * b.z,
         a.w * b.x + a.x * b.w + a.y * b.z - a.z * b.y,
         a.w * b.y - a.x * b.z + a.y * b.w + a.z * b.x,
         a.w * b.z + a.x * b.y - a.y * b.x + a.z * b.w)
  }

  /** q_normalize; over the reals its not-finite branch is never taken. */
  function QNormalize(lib: Libm, q: Quat): Quat {
    var n := lib.sqrt(NormSq(q));
    if n > 0.0000000001 then Quat(q.w / n, q.x / n, q.y / n, q.z / n) else q
  }

  /** The quaternion exponential, linear below 1e-7 rad. */
  function QExp(lib: Libm, v: V3): Quat {
    var th := Norm(lib, v);
    if th < 0.0000001 then Quat(1.0, v.x * 0.5, v.y * 0.5, v.z * 0.5)
    else
      var s := lib.sin(th * 0.5) / th;
      Quat(lib.cos(th * 0.5), v.x * s, v.y * s, v.z * s)
  }

  /** q_from_rotvec. */
  function QFromRotvec(lib: Libm, v: V3): Quat {
    QNormalize(lib, QExp(lib, v))
  }

  /** Euler's four-square identity. */
  lemma QMulNorm(a: Quat, b: Quat)
    ensures NormSq(QMul(a, b)) == NormSq(a) * NormSq(b)
  {
    var c := QMul(a, b);
    NormOf(a);
    NormOf(b);
    NormOf(c);
    QMulParts(a, b, c);
    hide NormSq, QMul, Squares, PartW, PartX, PartY, PartZ;
    FourSquareProduct(a.w, a.x, a.y, a.z, b.w, b.x, b.y, b.z, c.w, c.x, c.y, c.z, NormSq(a), NormSq(b));
  }

  function Squares(a: real, b: real, c: real, d: real): real {
    a * a + b * b + c * c + d * d
  }

  lemma NormOf(q: Quat)
    ensures NormSq(q) == Squares(q.w, q.x, q.y, q.z)
  {}

  // The components of a product of quaternions.
  function PartW(a: real, b: real, c: real, d: real, p: real, q: real, r: real, s: real): real { a * p - b * q - c * r - d * s }
  function PartX(a: real, b: real, c: real, d: real, p: real, q: real, r: real, s: real): real { a * q + b * p + c * s - d * r }
  function PartY(a: real, b: real, c: real, d: real, p: real, q: real, r: real, s: real): real { a * r - b * s + c * p + d * q }
  function PartZ(a: real, b: real, c: real, d: real, p: real, q: real, r: real, s: real): real { a * s + b * r - c * q + d * p }

  lemma QMulParts(a: Quat, b: Quat, c: Quat)
    requires c == QMul(a, b)
    ensures c.w == PartW(a.w, a.x, a.y, a.z, b.w, b.x, b.y, b.z)
    ensures c.x == PartX(a.w, a.x, a.y, a.z, b.w, b.x, b.y, b.z)
    ensures c.y == PartY(a.w, a.x, a.y, a.z, b.w, b.x, b.y, b.z)
    ensures c.z == PartZ(a.w, a.x, a.y, a.z, b.w, b.x, b.y, b.z)
  {}

  lemma FourSquareProduct(a: real, b: real, c: real, d: real, p: real, q: real, r: real, s: real,
                          w: real, x: real, y: real, z: real, m: real, n: real)
    requires m == Squares(a, b, c, d) && n == Squares(p, q, r, s)
    requires w == PartW(a, b, c, d, p, q, r, s) && x == PartX(a, b, c, d, p, q, r, s)
    requires y == PartY(a, b, c, d, p, q, r, s) && z == PartZ(a, b, c, d, p, q, r, s)
    ensures Squares(w, x, y, z) == m * n
  {
    FourTermsProduct(a, b, c, d, p, q, r, s, m, n);
    FourTermsParts(a, b, c, d, p, q, r, s);
    hide Squares, FourTerms, PartW, PartX, PartY, PartZ;
  }

  function FourTerms(a: real, b: real, c: real, d: real, p: real, q: real, r: real, s: real): real {
    Squares(a * p - b * q - c * r - d * s, a * q + b * p + c * s - d * r, a * r - b * s + c * p + d * q, a * s + b * r - c * q + d * p)
  }

  lemma FourTermsParts(a: real, b: real, c: real, d: real, p: real, q: real, r: real, s: real)
    ensures FourTerms(a, b, c, d, p, q, r, s)
         == Squares(PartW(a, b, c, d, p, q, r, s), PartX(a, b, c, d, p, q, r, s), PartY(a, b, c, d, p, q, r, s), PartZ(a, b, c, d, p, q, r, s))
  {
    hide Squares;
  }

  lemma FourTermsProduct(a: real, b: real, c: real, d: real, p: real, q: real, r: real, s: real, m: real, n: real)
    requires m == Squares(a, b, c, d) && n == Squares(p, q, r, s)
    ensures FourTerms(a, b, c, d, p, q, r, s) == m * n
  {
    FourSquareIdentity(a, b, c, d, p, q, r, s);
    SameProduct(m, a * a + b * b + c * c + d * d, n, p * p + q * q + r * r + s * s);
  }

  lemma SameProduct(x: real, p: real, y: real, q: real)
    requires x == p && y == q
    ensures x * y == p * q
  {}

  lemma FourSquareIdentity(a: real, b: real, c: real, d: real, p: real, q: real, r: real, s: real)
    ensures (a * p - b * q - c * r - d * s) * (a * p - b * q - c * r - d * s)
            + (a * q + b * p + c * s - d * r) * (a * q + b * p + c * s - d * r)
            + (a * r - b * s + c * p + d * q) * (a * r - b * s + c * p + d * q)
            + (a * s + b * r - c * q + d * p) * (a * s + b * r - c * q + d * p)
         == (a * a + b * b + c * c + d * d) * (p * p + q * q + r * r + s * s)
  {}

  lemma QNormalizeUnit(lib: Libm, q: Quat)
    requires lib.Valid() && NormSq(q) >= 1.0
    ensures Unit(QNormalize(lib, q))
  {
    var n := lib.sqrt(NormSq(q));
    RootAtLeastOne(n);
    assert Sq(n) == Sq(q.w) + Sq(q.x) + Sq(q.y) + Sq(q.z);
    UnitQuotients(n, q.w, q.x, q.y, q.z);
  }

  lemma FactorNonneg(a: real, b: real)
    requires b > 0.0 && a * b >= 0.0
    ensures a >= 0.0
  {}

  lemma RootAtLeastOne(n: real)
    requires n >= 0.0 && n * n >= 1.0
    ensures n >= 1.0
  {
    assert (n - 1.0) * (n + 1.0) >= 0.0;
    FactorNonneg(n - 1.0, n + 1.0);
  }

  lemma QFromRotvecUnit(lib: Libm, v: V3)
    requires lib.Valid()
    ensures Unit(QFromRotvec(lib, v))
  {
    hide QNormalize, NormSq, QExp;
    QExpNorm(lib, v);
    QNormalizeUnit(lib, QExp(lib, v));
  }

  lemma QExpNorm(lib: Libm, v: V3)
    requires lib.Valid()
    ensures NormSq(QExp(lib, v)) >= 1.0
  {
    var th := Norm(lib, v);
    NormLaw(lib, v);
    if th < 0.0000001 {
      HalfStep(v.x, v.y, v.z);
    } else {
      TurnStep(lib, v, th);
    }
  }

  lemma HalfStep(x: real, y: real, z: real)
    ensures NormSq(Quat(1.0, x * 0.5, y * 0.5, z * 0.5)) >= 1.0
  {
    SquareNonneg(x * 0.5);
    SquareNonneg(y * 0.5);
    SquareNonneg(z * 0.5);
  }

  lemma TurnStep(lib: Libm, v: V3, th: real)
    requires lib.Valid() && th != 0.0 && th * th == Dot(v, v)
    ensures var s := lib.sin(th * 0.5) / th;
            NormSq(Quat(lib.cos(th * 0.5), v.x * s, v.y * s, v.z * s)) == 1.0
  {
    var sn, cs := lib.sin(th * 0.5), lib.cos(th * 0.5);
    var s := sn / th;
    assert Sq(sn) + Sq(cs) == 1.0;
    ExpNorm(cs, sn, th, v.x, v.y, v.z, s, v.x * s, v.y * s, v.z * s);
    FourSquares(cs, v.x * s, v.y * s, v.z * s);
  }

  lemma FourSquares(w: real, x: real, y: real, z: real)
    ensures NormSq(Quat(w, x, y, z)) == Sq(w) + Sq(x) + Sq(y) + Sq(z)
  {}

  lemma ExpNorm(cs: real, sn: real, th: real, x: real, y: real, z: real, s: real, p: real, q: real, r: real)
    requires th != 0.0 && Sq(th) == Sq(x) + Sq(y) + Sq(z) && Sq(sn) + Sq(cs) == 1.0
    requires s == sn / th && p == x * s && q == y * s && r == z * s
    ensures Sq(cs) + Sq(p) + Sq(q) + Sq(r) == 1.0
  {
    hide Sq;
    SqProduct(x, s, p);
    SqProduct(y, s, q);
    SqProduct(z, s, r);
    SqShare(sn, th);
    CommonFactor(Sq(x), Sq(y), Sq(z), Sq(s), Sq(th), Sq(p), Sq(q), Sq(r));
  }

  lemma CommonFactor(a: real, b: real, c: real, s: real, t: real, p: real, q: real, r: real)
    requires a + b + c == t && p == a * s && q == b * s && r == c * s
    ensures p + q + r == s * t
  {}

  /** A correction or a gyro step keeps the attitude a unit quaternion. */
  lemma TurnUnit(lib: Libm, q: Quat, v: V3)
    requires lib.Valid() && Unit(q)
    ensures Unit(QNormalize(lib, QMul(q, QFromRotvec(lib, v))))
  {
    QFromRotvecUnit(lib, v);
    QMulNorm(q, QFromRotvec(lib, v));
    QNormalizeUnit(lib, QMul(q, QFromRotvec(lib, v)));
  }

  // ---------- rotation matrices ----------

  datatype M33 = M33(r0: V3, r1: V3, r2: V3)

  /** q_to_R: body to NED. */
  function QToR(q: Quat): M33 {
    M33(V3(1.0 - 2.0 * (q.y * q.y + q.z * q.z), 2.0 * (q.x * q.y - q.w * q.z), 2.0 * (q.x * q.z + q.w * q.y)),
        V3(2.0 * (q.x * q.y + q.w * q.z), 1.0 - 2.0 * (q.x * q.x + q.z * q.z), 2.0 * (q.y * q.z - q.w * q.x)),
        V3(2.0 * (q.x * q.z - q.w * q.y), 2.0 * (q.y * q.z + q.w * q.x), 1.0 - 2.0 * (q.x * q.x + q.y * q.y)))
  }

  function MulV(A: M33, v: V3): V3 {
    V3(Dot(A.r0, v), Dot(A.r1, v), Dot(A.r2, v))
  }

  /** m33_Atx: the transpose times a vector. */
  function TMulV(A: M33, v: V3): V3 {
    Plus(Plus(Times(v.x, A.r0), Times(v.y, A.r1)), Times(v.z, A.r2))
  }

  /** The NED-down axis seen from the body is a unit vector. */
  lemma DownRowUnit(q: Quat)
    requires Unit(q)
    ensures Dot(QToR(q).r2, QToR(q).r2) == 1.0
  {
    hide NormSq, Squares, Dot, QToR, DownRow;
    NormOf(q);
    DownRowOf(q);
    DownSquares(q.w, q.x, q.y, q.z);
  }

  function DownRow(w: real, x: real, y: real, z: real): V3 {
    V3(2.0 * (x * z - w * y), 2.0 * (y * z + w * x), 1.0 - 2.0 * (x * x + y * y))
  }

  lemma DownRowOf(q: Quat)
    ensures QToR(q).r2 == DownRow(q.w, q.x, q.y, q.z)
  {}

  lemma DownSquares(w: real, x: real, y: real, z: real)
    requires Squares(w, x, y, z) == 1.0
    ensures Dot(DownRow(w, x, y, z), DownRow(w, x, y, z)) == 1.0
  {
    DownHorizontal(w, x, y, z);
    Complement(x * x + y * y, w * w + z * z);
  }

  lemma DownHorizontal(w: real, x: real, y: real, z: real)
    ensures (2.0 * (x * z - w * y)) * (2.0 * (x * z - w * y)) + (2.0 * (y * z + w * x)) * (2.0 * (y * z + w * x))
         == 4.0 * ((x * x + y * y) * (w * w + z * z))
  {}

  lemma Complement(a: real, b: real)
    requires a + b == 1.0
    ensures 4.0 * (a * b) + (1.0 - 2.0 * a) * (1.0 - 2.0 * a) == 1.0
  {
    assert b == 1.0 - a;
    assert a * b == a - a * a;
  }

  // ---------- m33_inv ----------

  function Det(A: M33): real {
    Dot(A.r0, Cross(A.r1, A.r2))
  }

  function MaxAbs3(v: V3, m: real): real {
    var a := if Abs(v.x) > m then Abs(v.x) else m;
    var b := if Abs(v.y) > a then Abs(v.y) else a;
    if Abs(v.z) > b then Abs(v.z) else b
  }

  function MaxAbs(A: M33): real {
    MaxAbs3(A.r2, MaxAbs3(A.r1, MaxAbs3(A.r0, 0.0)))
  }

  datatype Option<+X> = None | Some(value: X)

  /** m33_inv: Cramer's rule, refusing a determinant small against the matrix's scale. */
  function Inv(A: M33): Option<M33> {
    var d := Det(A);
    var s := MaxAbs(A);
    MaxAbsNonneg(A);
    CubeNonneg(s);
    if !(Abs(d) > 0.000001 * s * s * s) then None
    else
      var i := 1.0 / d;
      var c0, c1, c2 := Cross(A.r1, A.r2), Cross(A.r2, A.r0), Cross(A.r0, A.r1);
      Some(Adjugate(c0, c1, c2, i))
  }

  function Transpose(A: M33): M33 {
    M33(V3(A.r0.x, A.r1.x, A.r2.x), V3(A.r0.y, A.r1.y, A.r2.y), V3(A.r0.z, A.r1.z, A.r2.z))
  }

  function MulM(A: M33, B: M33): M33 {
    M33(TMulV(B, A.r0), TMulV(B, A.r1), TMulV(B, A.r2))
  }

  const IDENTITY := M33(V3(1.0, 0.0, 0.0), V3(0.0, 1.0, 0.0), V3(0.0, 0.0, 1.0))

  lemma MaxAbsNonneg(A: M33)
    ensures MaxAbs(A) >= 0.0
  {}

  lemma InvDet(A: M33)
    requires Inv(A).Some?
    ensures Det(A) != 0.0
  {
    hide Det, MaxAbs, Adjugate, Cross;
    MaxAbsNonneg(A);
    CubeNonneg(MaxAbs(A));
  }

  lemma CubeNonneg(s: real)
    requires s >= 0.0
    ensures 0.000001 * s * s * s >= 0.0
  {
    var t := s * s;
    assert t >= 0.0;
    assert t * s >= 0.0;
    assert 0.000001 * s * s * s == 0.000001 * (t * s);
  }

  lemma DotCross(a: V3, b: V3, c: V3)
    ensures Dot(a, Cross(b, c))
         == a.x * b.y * c.z - a.x * b.z * c.y + a.y * b.z * c.x - a.y * b.x * c.z
            + a.z * b.x * c.y - a.z * b.y * c.x
  {
    Distribute(a.x, b.y * c.z, b.z * c.y);
    Distribute(a.y, b.z * c.x, b.x * c.z);
    Distribute(a.z, b.x * c.y, b.y * c.x);
  }

  lemma Distribute(a: real, b: real, c: real)
    ensures a * (b - c) == a * b - a * c
  {}

  lemma CrossOrthogonal(a: V3, b: V3)
    ensures Dot(a, Cross(a, b)) == 0.0
    ensures Dot(b, Cross(a, b)) == 0.0
  {
    DotCross(a, a, b);
    DotCross(b, a, b);
  }

  lemma TripleCycle(a: V3, b: V3, c: V3)
    ensures Dot(a, Cross(b, c)) == Dot(b, Cross(c, a))
    ensures Dot(a, Cross(b, c)) == Dot(c, Cross(a, b))
  {
    DotCross(a, b, c);
    DotCross(b, c, a);
    DotCross(c, a, b);
  }

  /** The adjugate columns, scaled. */
  function Adjugate(c0: V3, c1: V3, c2: V3, i: real): M33 {
    Transpose(M33(Times(i, c0), Times(i, c1), Times(i, c2)))
  }

  lemma TMulVTranspose(B: M33, r: V3)
    ensures TMulV(Transpose(B), r) == MulV(B, r)
  {}

  lemma DotTimes(i: real, c: V3, r: V3)
    ensures Dot(Times(i, c), r) == i * Dot(r, c)
  {}

  lemma AdjugateRow(r: V3, c0: V3, c1: V3, c2: V3, i: real)
    ensures TMulV(Adjugate(c0, c1, c2, i), r) == V3(i * Dot(r, c0), i * Dot(r, c1), i * Dot(r, c2))
  {
    hide Dot, TMulV, Transpose, Times;
    TMulVTranspose(M33(Times(i, c0), Times(i, c1), Times(i, c2)), r);
    DotTimes(i, c0, r);
    DotTimes(i, c1, r);
    DotTimes(i, c2, r);
  }

  /** When m33_inv accepts, what it writes is the right inverse. */
  lemma InvRight(A: M33)
    requires Inv(A).Some?
    ensures MulM(A, Inv(A).value) == IDENTITY
  {
    InvDet(A);
    CrossOrthogonal(A.r1, A.r2);
    CrossOrthogonal(A.r2, A.r0);
    CrossOrthogonal(A.r0, A.r1);
    TripleCycle(A.r0, A.r1, A.r2);
    InverseRows(A, Det(A));
  }

  lemma InverseRows(A: M33, d: real)
    requires d != 0.0
    requires var c0, c1, c2 := Cross(A.r1, A.r2), Cross(A.r2, A.r0), Cross(A.r0, A.r1);
             && Dot(A.r0, c0) == d && Dot(A.r1, c1) == d && Dot(A.r2, c2) == d
             && Dot(A.r0, c1) == 0.0 && Dot(A.r0, c2) == 0.0 && Dot(A.r1, c0) == 0.0
             && Dot(A.r1, c2) == 0.0 && Dot(A.r2, c0) == 0.0 && Dot(A.r2, c1) == 0.0
    ensures MulM(A, Adjugate(Cross(A.r1, A.r2), Cross(A.r2, A.r0), Cross(A.r0, A.r1), 1.0 / d)) == IDENTITY
  {
    hide Dot, Cross, Adjugate, TMulV;
    var c0, c1, c2 := Cross(A.r1, A.r2), Cross(A.r2, A.r0), Cross(A.r0, A.r1);
    AdjugateRow(A.r0, c0, c1, c2, 1.0 / d);
    AdjugateRow(A.r1, c0, c1, c2, 1.0 / d);
    AdjugateRow(A.r2, c0, c1, c2, 1.0 / d);
    assert (1.0 / d) * d == 1.0;
  }
}
