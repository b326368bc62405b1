/**
 validate_rotation of src/config.c on matrices that are rotations only within its tolerance:
 what it accepts, and how close that is to a rotation.
 */
module RotationCheck {
  import opened FusionMath
  import opened SwingFrame

  const TOLERANCE := 0.000001

  predicate Near(x: real, y: real) {
    -0.000001 <= x - y <= 0.000001
  }

  /** validate_rotation accepts exactly the matrices with RᵀR within the tolerance of I, in the norm it takes, and no
      negative determinant. */
  lemma AcceptedExactly(lib: Libm, R: M33)
    requires lib.Valid()
    ensures Accepted(lib, R) <==> RotationError(R) <= TOLERANCE * TOLERANCE && Det(R) >= 0.0
  {
    ErrorNonneg(R);
    hide RotationError, Det;
    RootWithin(lib.sqrt(RotationError(R)), RotationError(R), TOLERANCE);
  }

  lemma ErrorNonneg(R: M33)
    ensures RotationError(R) >= 0.0
  {
    var E := MulM(Transpose(R), R);
    hide MulM, Transpose;
    SquareSign(E.r0.x - 1.0); SquareSign(E.r0.y); SquareSign(E.r0.z);
    SquareSign(E.r1.x); SquareSign(E.r1.y - 1.0); SquareSign(E.r1.z);
    SquareSign(E.r2.x); SquareSign(E.r2.y); SquareSign(E.r2.z - 1.0);
    hide Sq;
  }

  lemma SquareSign(x: real)
    ensures Sq(x) >= 0.0
  {
    SquareNonneg(x);
  }

  lemma RootWithin(r: real, x: real, t: real)
    requires r >= 0.0 && r * r == x && t > 0.0
    ensures r <= t <==> x <= t * t
  {
    if r <= t {
      NonnegProd(t - r, t + r);
    } else {
      PositiveGap(r - t, r + t);
    }
    assert (t - r) * (t + r) == t * t - r * r;
    assert (r - t) * (r + t) == r * r - t * t;
  }

  lemma PositiveGap(x: real, y: real)
    requires x > 0.0 && y > 0.0
    ensures x * y > 0.0
  {}

  /** A matrix it accepts has every entry of RᵀR within the tolerance of the identity's, and a determinant near one:
      no reflection, and nothing degenerate. */
  lemma AcceptedNear(lib: Libm, R: M33)
    requires lib.Valid() && Accepted(lib, R)
    ensures var C := Transpose(R);
            && Near(Dot(C.r0, C.r0), 1.0) && Near(Dot(C.r1, C.r1), 1.0) && Near(Dot(C.r2, C.r2), 1.0)
            && Near(Dot(C.r0, C.r1), 0.0) && Near(Dot(C.r0, C.r2), 0.0) && Near(Dot(C.r1, C.r2), 0.0)
    ensures 0.99 < Det(R) < 1.01
  {
    var C := Transpose(R);
    AcceptedExactly(lib, R);
    EntriesNear(R);
    DetTranspose(R);
    DetIs(C);
    GramNear(C.r0, C.r1, C.r2);
    hide Dot, Cross, Transpose, Det, RotationError, Near;
    RootNearOne(Det(R));
  }

  lemma DetIs(C: M33)
    ensures Det(C) == Dot(C.r0, Cross(C.r1, C.r2))
  {}

  lemma RootNearOne(d: real)
    requires d >= 0.0 && 0.999 <= d * d <= 1.001
    ensures 0.99 < d < 1.01
  {
    if d <= 0.99 { Bounded(d, d, 0.99, 0.99); }
    if d >= 1.01 { NonnegProd(d - 1.01, d + 1.01); }
  }

  lemma EntriesNear(R: M33)
    requires RotationError(R) <= TOLERANCE * TOLERANCE
    ensures var C := Transpose(R);
            && Near(Dot(C.r0, C.r0), 1.0) && Near(Dot(C.r1, C.r1), 1.0) && Near(Dot(C.r2, C.r2), 1.0)
            && Near(Dot(C.r0, C.r1), 0.0) && Near(Dot(C.r0, C.r2), 0.0) && Near(Dot(C.r1, C.r2), 0.0)
  {
    var E, C := MulM(Transpose(R), R), Transpose(R);
    GramEntries(R);
    SquareSign(E.r1.x); SquareSign(E.r2.x); SquareSign(E.r2.y);
    hide MulM, Transpose, Dot;
    NineSquares(E.r0.x - 1.0, E.r0.y, E.r0.z, E.r1.y - 1.0, E.r1.z, E.r2.z - 1.0, Sq(E.r1.x) + Sq(E.r2.x) + Sq(E.r2.y));
  }

  lemma GramEntries(R: M33)
    ensures var E, C := MulM(Transpose(R), R), Transpose(R);
            && E.r0.x == Dot(C.r0, C.r0) && E.r1.y == Dot(C.r1, C.r1) && E.r2.z == Dot(C.r2, C.r2)
            && E.r0.y == Dot(C.r0, C.r1) && E.r0.z == Dot(C.r0, C.r2) && E.r1.z == Dot(C.r1, C.r2)
  {
    var C := Transpose(R);
    RowTimes(R, C.r0);
    RowTimes(R, C.r1);
    RowTimes(R, C.r2);
    hide TMulV, Dot, Transpose;
  }

  lemma RowTimes(R: M33, v: V3)
    ensures var C := Transpose(R); TMulV(R, v) == V3(Dot(v, C.r0), Dot(v, C.r1), Dot(v, C.r2))
  {}

  lemma NineSquares(a: real, b: real, c: real, d: real, e: real, f: real, rest: real)
    requires rest >= 0.0 && Sq(a) + Sq(b) + Sq(c) + Sq(d) + Sq(e) + Sq(f) + rest <= TOLERANCE * TOLERANCE
    ensures Near(a, 0.0) && Near(b, 0.0) && Near(c, 0.0) && Near(d, 0.0) && Near(e, 0.0) && Near(f, 0.0)
  {
    SquareSign(a); SquareSign(b); SquareSign(c); SquareSign(d); SquareSign(e); SquareSign(f);
    hide Sq;
    SmallRoot(a); SmallRoot(b); SmallRoot(c); SmallRoot(d); SmallRoot(e); SmallRoot(f);
  }

  lemma SmallRoot(x: real)
    ensures Sq(x) <= TOLERANCE * TOLERANCE ==> Near(x, 0.0)
  {
    if x > TOLERANCE { PositiveGap(x - TOLERANCE, x + TOLERANCE); }
    if x < -TOLERANCE { PositiveGap(-x - TOLERANCE, -x + TOLERANCE); }
  }

  // ---------- the determinant of a Gram matrix ----------

  lemma LagrangeIdentity(a: real, b: real, c: real, p: real, q: real, r: real)
    ensures (b * r - c * q) * (b * r - c * q) + (c * p - a * r) * (c * p - a * r) + (a * q - b * p) * (a * q - b * p)
         == (a * a + b * b + c * c) * (p * p + q * q + r * r) - (a * p + b * q + c * r) * (a * p + b * q + c * r)
  {}

  lemma Lagrange(u: V3, v: V3)
    ensures Dot(Cross(u, v), Cross(u, v)) == Dot(u, u) * Dot(v, v) - Dot(u, v) * Dot(u, v)
  {
    LagrangeIdentity(u.x, u.y, u.z, v.x, v.y, v.z);
  }

  lemma BacCab(a: V3, b: V3, c: V3)
    ensures Cross(a, Cross(b, c)) == Plus(Times(Dot(a, c), b), Times(-Dot(a, b), c))
  {
    BacCabOf(a, b, c, Cross(b, c), Dot(a, c), Dot(a, b));
    hide Dot, Cross, Plus, Times;
  }

  lemma BacCabOf(a: V3, b: V3, c: V3, w: V3, s: real, t: real)
    requires w == Cross(b, c) && s == Dot(a, c) && t == Dot(a, b)
    ensures Cross(a, w) == Plus(Times(s, b), Times(-t, c))
  {
    BacCabParts(a, b, c, w, s, t);
    hide Dot, Cross, Plus, Times;
    Assembled(Cross(a, w), s, b, t, c);
  }

  lemma BacCabParts(a: V3, b: V3, c: V3, w: V3, s: real, t: real)
    requires w == Cross(b, c) && s == Dot(a, c) && t == Dot(a, b)
    ensures Cross(a, w).x == s * b.x + -t * c.x
    ensures Cross(a, w).y == s * b.y + -t * c.y
    ensures Cross(a, w).z == s * b.z + -t * c.z
  {
    BacCabOne(a.x, a.y, a.z, b.x, b.y, b.z, c.x, c.y, c.z, w.y, w.z, s, t);
    BacCabOne(a.y, a.z, a.x, b.y, b.z, b.x, c.y, c.z, c.x, w.z, w.x, s, t);
    BacCabOne(a.z, a.x, a.y, b.z, b.x, b.y, c.z, c.x, c.y, w.x, w.y, s, t);
    hide Dot;
  }

  lemma Assembled(v: V3, s: real, b: V3, t: real, c: V3)
    requires v.x == s * b.x + -t * c.x && v.y == s * b.y + -t * c.y && v.z == s * b.z + -t * c.z
    ensures v == Plus(Times(s, b), Times(-t, c))
  {}

  lemma BacCabOne(a: real, b: real, c: real, p: real, q: real, r: real, u: real, v: real, w: real,
                  y: real, z: real, s: real, t: real)
    requires s == a * u + b * v + c * w && t == a * p + b * q + c * r && y == r * u - p * w && z == p * v - q * u
    ensures b * z - c * y == s * p + -t * u
  {
    BacCabFlat(a, b, c, p, q, r, u, v, w);
    SameProduct(b, b, z, p * v - q * u);
    SameProduct(c, c, y, r * u - p * w);
    SameProduct(s, a * u + b * v + c * w, p, p);
    SameProduct(t, a * p + b * q + c * r, u, u);
  }

  lemma BacCabFlat(a: real, b: real, c: real, p: real, q: real, r: real, u: real, v: real, w: real)
    ensures b * (p * v - q * u) - c * (r * u - p * w) == (a * u + b * v + c * w) * p - (a * p + b * q + c * r) * u
  {}

  lemma CombinedNorm(s: real, t: real, b: V3, c: V3)
    ensures Dot(Plus(Times(s, b), Times(t, c)), Plus(Times(s, b), Times(t, c)))
         == (s * s) * Dot(b, b) + 2.0 * ((s * t) * Dot(b, c)) + (t * t) * Dot(c, c)
  {}

  /** The squared determinant of three vectors, from their dot products alone. */
  lemma GramDet(a: V3, b: V3, c: V3)
    ensures var w, d := Cross(b, c), Dot(a, Cross(b, c));
            d * d == Dot(a, a) * Dot(w, w) - Dot(Cross(a, w), Cross(a, w))
    ensures var w := Cross(b, c); Dot(w, w) == Dot(b, b) * Dot(c, c) - Dot(b, c) * Dot(b, c)
    ensures var w, s, t := Cross(b, c), Dot(a, c), -Dot(a, b);
            Dot(Cross(a, w), Cross(a, w)) == (s * s) * Dot(b, b) + 2.0 * ((s * t) * Dot(b, c)) + (t * t) * Dot(c, c)
  {
    Lagrange(b, c);
    Lagrange(a, Cross(b, c));
    BacCab(a, b, c);
    CombinedNorm(Dot(a, c), -Dot(a, b), b, c);
    hide Dot, Cross, Plus, Times;
  }

  /** Nearly orthonormal vectors have a determinant whose square is nearly one. */
  lemma GramNear(a: V3, b: V3, c: V3)
    requires Near(Dot(a, a), 1.0) && Near(Dot(b, b), 1.0) && Near(Dot(c, c), 1.0)
    requires Near(Dot(a, b), 0.0) && Near(Dot(a, c), 0.0) && Near(Dot(b, c), 0.0)
    ensures 0.999 <= Dot(a, Cross(b, c)) * Dot(a, Cross(b, c)) <= 1.001
  {
    GramDet(a, b, c);
    hide Dot, Cross;
    var w, s, t := Cross(b, c), Dot(a, c), -Dot(a, b);
    DetNear(Dot(a, Cross(b, c)) * Dot(a, Cross(b, c)), Dot(a, a), Dot(b, b), Dot(c, c), t, s, Dot(b, c),
            Dot(w, w), Dot(Cross(a, w), Cross(a, w)), Dot(b, b) * Dot(c, c), Dot(b, c) * Dot(b, c), Dot(a, a) * Dot(w, w),
            s * s, s * t, t * t, (s * s) * Dot(b, b), (s * t) * Dot(b, c), (t * t) * Dot(c, c));
  }

  lemma DetFlat(a: real, b: real, c: real, d: real, e: real, f: real, g: real, h: real, i: real)
    ensures a * (e * i - f * h) + b * (f * g - d * i) + c * (d * h - e * g)
         == a * (e * i - h * f) + d * (h * c - b * i) + g * (b * f - e * c)
  {}

  lemma DetTranspose(A: M33)
    ensures Det(Transpose(A)) == Det(A)
  {
    DetFlat(A.r0.x, A.r0.y, A.r0.z, A.r1.x, A.r1.y, A.r1.z, A.r2.x, A.r2.y, A.r2.z);
  }

  // ---------- bounds ----------

  lemma DetNear(d2: real, aa: real, bb: real, cc: real, t: real, s: real, bc: real, ww: real, xx: real,
                bbcc: real, bcbc: real, aaww: real, p: real, r: real, q: real, pb: real, rb: real, qc: real)
    requires Near(aa, 1.0) && Near(bb, 1.0) && Near(cc, 1.0) && Near(t, 0.0) && Near(s, 0.0) && Near(bc, 0.0)
    requires bbcc == bb * cc && bcbc == bc * bc && ww == bbcc - bcbc && aaww == aa * ww && d2 == aaww - xx
    requires p == s * s && r == s * t && q == t * t && pb == p * bb && rb == r * bc && qc == q * cc && xx == pb + 2.0 * rb + qc
    ensures 0.999 <= d2 <= 1.001
  {
    Within(bc, bc);
    Within(s, s);
    Within(s, t);
    Within(t, t);
    Around(bb, cc);
    Within(p, bb);
    Within(r, bc);
    Within(q, cc);
    Around(aa, ww);
  }

  /** A small factor of a moderate one. */
  lemma Within(x: real, y: real)
    requires -0.00001 <= x <= 0.00001 && -2.0 <= y <= 2.0
    ensures -0.00002 <= x * y <= 0.00002
    ensures -0.000001 <= x <= 0.000001 && -0.000001 <= y <= 0.000001 ==> -0.000001 <= x * y <= 0.000001
  {
    Bounded(x, y, 0.00001, 2.0);
    if -0.000001 <= x <= 0.000001 && -0.000001 <= y <= 0.000001 { Bounded(x, y, 0.000001, 0.000001); }
  }

  lemma Bounded(x: real, y: real, b: real, c: real)
    requires -b <= x <= b && -c <= y <= c
    ensures -(b * c) <= x * y <= b * c
  {
    var k, l, m, n := b - x, b + x, c - y, c + y;
    NonnegProd(k, n); NonnegProd(l, m); NonnegProd(k, m); NonnegProd(l, n);
    assert k * n + l * m == 2.0 * (b * c) - 2.0 * (x * y);
    assert k * m + l * n == 2.0 * (b * c) + 2.0 * (x * y);
  }

  lemma NonnegProd(x: real, y: real)
    requires x >= 0.0 && y >= 0.0
    ensures x * y >= 0.0
  {}

  lemma Around(x: real, y: real)
    requires -0.00001 <= x - 1.0 <= 0.00001 && -0.00001 <= y - 1.0 <= 0.00001
    ensures -0.00004 <= x * y - 1.0 <= 0.00004
    ensures Near(x, 1.0) && Near(y, 1.0) ==> -0.000003 <= x * y - 1.0 <= 0.000003
  {
    var d, e := x - 1.0, y - 1.0;
    assert x * y == 1.0 + d + e + d * e;
    Within(d, e);
  }
}
