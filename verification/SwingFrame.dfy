/**
 The frames of cal_mag_fit in src/cal_math.c: the mount rotation src/config.c builds, the least
 turn onto the swing's vertical, and the way a correction found in the swing's axes is stored
 in the board's.
 */
module SwingFrame {
  import opened FusionMath
  import opened Sums
  import opened Matrix
  import opened Fusion
  import opened ArrayMat
  import FusionGain
  import FusionRuns

  const CAL_G_MS2 := 9.80665

  /** QᵀQ = QQᵀ = I. */
  predicate Orthonormal(Q: Mat) {
    IsMat(Q, 3, 3) && Mul(3, 3, 3, T(3, 3, Q), Q) == Eye(3) && Mul(3, 3, 3, Q, T(3, 3, Q)) == Eye(3)
  }

  lemma TransposeOrthonormal(Q: Mat)
    requires Orthonormal(Q)
    ensures Orthonormal(T(3, 3, Q))
  {
    hide Mul;
    TT(3, 3, Q);
  }

  lemma OuterCancel(A: Mat, B: Mat)
    requires Orthonormal(A) && Orthonormal(B)
    ensures Mul(3, 3, 3, Mul(3, 3, 3, A, B), T(3, 3, Mul(3, 3, 3, A, B))) == Eye(3)
  {
    hide Mul, T, Eye;
    var At_, Bt := T(3, 3, A), T(3, 3, B);
    TMul(3, 3, 3, A, B);
    MulAssoc(3, 3, 3, 3, A, B, Mul(3, 3, 3, Bt, At_));
    MulAssoc(3, 3, 3, 3, B, Bt, At_);
    MulEye(3, 3, At_);
  }

  lemma InnerCancel(A: Mat, B: Mat)
    requires Orthonormal(A) && Orthonormal(B)
    ensures Mul(3, 3, 3, T(3, 3, Mul(3, 3, 3, A, B)), Mul(3, 3, 3, A, B)) == Eye(3)
  {
    hide Mul, T, Eye;
    var At_, Bt := T(3, 3, A), T(3, 3, B);
    TMul(3, 3, 3, A, B);
    MulAssoc(3, 3, 3, 3, Bt, At_, Mul(3, 3, 3, A, B));
    MulAssoc(3, 3, 3, 3, At_, A, B);
    MulEye(3, 3, B);
  }

  lemma ProductOrthonormal(A: Mat, B: Mat)
    requires Orthonormal(A) && Orthonormal(B)
    ensures Orthonormal(Mul(3, 3, 3, A, B))
  {
    hide Mul, T, Eye;
    OuterCancel(A, B);
    InnerCancel(A, B);
  }

  // ---------- orthonormal 3×3 values ----------

  /** A proper rotation: orthonormal rows and columns, right-handed. */
  predicate Proper(A: M33) {
    && MulM(Transpose(A), A) == IDENTITY
    && MulM(A, Transpose(A)) == IDENTITY
    && Cross(A.r0, A.r1) == A.r2
  }

  lemma FromTranspose(A: M33)
    ensures FromM33(Transpose(A)) == T(3, 3, FromM33(A))
  {
    MatEq(FromM33(Transpose(A)), T(3, 3, FromM33(A)), 3, 3);
  }

  lemma ProperOrthonormal(A: M33)
    requires MulM(Transpose(A), A) == IDENTITY && MulM(A, Transpose(A)) == IDENTITY
    ensures Orthonormal(FromM33(A))
  {
    hide MulM, Transpose, FromM33, Mul, T, Eye;
    FusionGain.FromMul(Transpose(A), A);
    FusionGain.FromMul(A, Transpose(A));
    FromTranspose(A);
    FusionGain.IdentityIsEye();
  }

  /** The determinant of a proper rotation is +1. */
  lemma ProperDet(A: M33)
    requires Proper(A)
    ensures Det(A) == 1.0
  {
    hide Cross;
    TripleCycle(A.r0, A.r1, A.r2);
    assert Det(A) == Dot(A.r2, Cross(A.r0, A.r1));
    RowLength(A);
  }

  lemma RowLength(A: M33)
    requires MulM(A, Transpose(A)) == IDENTITY
    ensures Dot(A.r2, A.r2) == 1.0
  {
    assert MulM(A, Transpose(A)).r2.z == Dot(A.r2, A.r2);
  }

  // ---------- euler_deg_to_rot ----------

  function RotX(c: real, s: real): M33 { M33(V3(1.0, 0.0, 0.0), V3(0.0, c, -s), V3(0.0, s, c)) }
  function RotY(c: real, s: real): M33 { M33(V3(c, 0.0, s), V3(0.0, 1.0, 0.0), V3(-s, 0.0, c)) }
  function RotZ(c: real, s: real): M33 { M33(V3(c, -s, 0.0), V3(s, c, 0.0), V3(0.0, 0.0, 1.0)) }

  /** Rows of unit length, at right angles. */
  predicate UnitRows(A: M33) {
    && Dot(A.r0, A.r0) == 1.0 && Dot(A.r1, A.r1) == 1.0 && Dot(A.r2, A.r2) == 1.0
    && Dot(A.r0, A.r1) == 0.0 && Dot(A.r0, A.r2) == 0.0 && Dot(A.r1, A.r2) == 0.0
  }

  lemma DotSwap(a: V3, b: V3)
    ensures Dot(a, b) == Dot(b, a)
  {}

  lemma UnitRowsInverse(A: M33)
    requires UnitRows(A)
    ensures MulM(A, Transpose(A)) == IDENTITY
  {
    hide Dot, TMulV;
    TMulVTranspose(A, A.r0);
    TMulVTranspose(A, A.r1);
    TMulVTranspose(A, A.r2);
    DotSwap(A.r0, A.r1);
    DotSwap(A.r0, A.r2);
    DotSwap(A.r1, A.r2);
  }

  lemma TransposeTwice(A: M33)
    ensures Transpose(Transpose(A)) == A
  {}

  lemma UnitBoth(A: M33)
    requires UnitRows(A) && UnitRows(Transpose(A))
    ensures MulM(A, Transpose(A)) == IDENTITY && MulM(Transpose(A), A) == IDENTITY
  {
    hide MulM, Transpose;
    UnitRowsInverse(A);
    TransposeTwice(A);
    UnitRowsInverse(Transpose(A));
  }

  lemma RotXUnit(c: real, s: real)
    requires s * s + c * c == 1.0
    ensures UnitRows(RotX(c, s)) && UnitRows(Transpose(RotX(c, s)))
  {}

  lemma RotYUnit(c: real, s: real)
    requires s * s + c * c == 1.0
    ensures UnitRows(RotY(c, s)) && UnitRows(Transpose(RotY(c, s)))
  {}

  lemma RotZUnit(c: real, s: real)
    requires s * s + c * c == 1.0
    ensures UnitRows(RotZ(c, s)) && UnitRows(Transpose(RotZ(c, s)))
  {}

  /** Rz·(Ry·Rx). */
  function EulerRot(cr: real, sr: real, cp: real, sp: real, cy: real, sy: real): M33 {
    MulM(RotZ(cy, sy), MulM(RotY(cp, sp), RotX(cr, sr)))
  }

  /** Its rows, multiplied out. */
  lemma EulerRows(cr: real, sr: real, cp: real, sp: real, cy: real, sy: real)
    ensures MulM(RotY(cp, sp), RotX(cr, sr))
         == M33(V3(cp, sp * sr, sp * cr), V3(0.0, cr, -sr), V3(-sp, cp * sr, cp * cr))
  {}

  lemma TurnRow(c: real, k: real, B: M33)
    ensures TMulV(B, V3(c, k, 0.0)) == Plus(Times(c, B.r0), Times(k, B.r1))
  {}

  lemma LastRow(B: M33)
    ensures TMulV(B, V3(0.0, 0.0, 1.0)) == B.r2
  {
    hide Times, Plus;
    TimesUnits(B.r0);
    TimesUnits(B.r1);
    TimesUnits(B.r2);
    PlusOrigin(ORIGIN);
    PlusOrigin(B.r2);
  }

  lemma TimesUnits(v: V3)
    ensures Times(0.0, v) == ORIGIN && Times(1.0, v) == v
  {}

  lemma PlusOrigin(v: V3)
    ensures Plus(ORIGIN, v) == v
  {}

  lemma TurnRows(cy: real, sy: real, B: M33)
    ensures MulM(RotZ(cy, sy), B)
         == M33(Plus(Times(cy, B.r0), Times(-sy, B.r1)), Plus(Times(sy, B.r0), Times(cy, B.r1)), B.r2)
  {
    hide TMulV, Plus, Times;
    TurnRow(cy, -sy, B);
    TurnRow(sy, cy, B);
    LastRow(B);
  }

  /** Turning two rows about the third leaves their cross product. */
  lemma CrossTurn(c: real, s: real, a: V3, b: V3)
    requires s * s + c * c == 1.0
    ensures Cross(Plus(Times(c, a), Times(-s, b)), Plus(Times(s, a), Times(c, b))) == Cross(a, b)
  {
    var u, w := Plus(Times(c, a), Times(-s, b)), Plus(Times(s, a), Times(c, b));
    TurnedIs(c, s, a, b);
    hide Plus, Times;
    CrossComponent(c, s, a.y, a.z, b.y, b.z, u.y, u.z, w.y, w.z);
    CrossComponent(c, s, a.z, a.x, b.z, b.x, u.z, u.x, w.z, w.x);
    CrossComponent(c, s, a.x, a.y, b.x, b.y, u.x, u.y, w.x, w.y);
  }

  lemma TurnedIs(c: real, s: real, a: V3, b: V3)
    ensures var u, w := Plus(Times(c, a), Times(-s, b)), Plus(Times(s, a), Times(c, b));
            && u.x == c * a.x - s * b.x && u.y == c * a.y - s * b.y && u.z == c * a.z - s * b.z
            && w.x == s * a.x + c * b.x && w.y == s * a.y + c * b.y && w.z == s * a.z + c * b.z
  {
    PlusTimes(c, a, -s, b);
    PlusTimes(s, a, c, b);
    NegTimes(s, b.x);
    NegTimes(s, b.y);
    NegTimes(s, b.z);
    hide Plus, Times;
  }

  lemma PlusTimes(c: real, a: V3, k: real, b: V3)
    ensures var u := Plus(Times(c, a), Times(k, b));
            u.x == c * a.x + k * b.x && u.y == c * a.y + k * b.y && u.z == c * a.z + k * b.z
  {}

  lemma NegTimes(s: real, x: real)
    ensures -s * x == -(s * x)
  {}

  lemma CrossComponent(c: real, s: real, p: real, q: real, r: real, t: real, u: real, v: real, w: real, z: real)
    requires s * s + c * c == 1.0
    requires u == c * p - s * r && v == c * q - s * t && w == s * p + c * r && z == s * q + c * t
    ensures u * z - v * w == p * t - q * r
  {
    ExpandPair(c, s, p, r, q, t);
    ExpandPair(c, s, q, t, p, r);
    Collect(c * c, s * s, p * t, q * r);
  }

  lemma ExpandPair(c: real, s: real, p: real, r: real, q: real, t: real)
    ensures (c * p - s * r) * (s * q + c * t) == (c * s) * (p * q) + (c * c) * (p * t) - (s * s) * (r * q) - (c * s) * (r * t)
  {}

  lemma Collect(cc: real, ss: real, u: real, v: real)
    requires ss + cc == 1.0
    ensures (cc * u - ss * v) - (cc * v - ss * u) == u - v
  {
    assert cc * u + ss * u == u by { assert (cc + ss) * u == cc * u + ss * u; }
    assert cc * v + ss * v == v by { assert (cc + ss) * v == cc * v + ss * v; }
  }

  lemma TiltCross(cr: real, sr: real, cp: real, sp: real)
    requires sr * sr + cr * cr == 1.0
    ensures Cross(V3(cp, sp * sr, sp * cr), V3(0.0, cr, -sr)) == V3(-sp, cp * sr, cp * cr)
  {
    assert sp * (sr * sr) + sp * (cr * cr) == sp by { assert sp * (sr * sr + cr * cr) == sp * (sr * sr) + sp * (cr * cr); }
  }

  /** Whatever the angles, the mount matrix is a proper rotation. */
  lemma EulerProper(cr: real, sr: real, cp: real, sp: real, cy: real, sy: real)
    requires sr * sr + cr * cr == 1.0 && sp * sp + cp * cp == 1.0 && sy * sy + cy * cy == 1.0
    ensures Orthonormal(FromM33(EulerRot(cr, sr, cp, sp, cy, sy)))
    ensures Proper(EulerRot(cr, sr, cp, sp, cy, sy))
  {
    hide MulM, Transpose, RotX, RotY, RotZ, FromM33, Orthonormal, Cross, UnitRows;
    RotXUnit(cr, sr);
    RotYUnit(cp, sp);
    RotZUnit(cy, sy);
    UnitBoth(RotX(cr, sr));
    UnitBoth(RotY(cp, sp));
    UnitBoth(RotZ(cy, sy));
    ProperOrthonormal(RotX(cr, sr));
    ProperOrthonormal(RotY(cp, sp));
    ProperOrthonormal(RotZ(cy, sy));
    var YX := MulM(RotY(cp, sp), RotX(cr, sr));
    ProductOrthonormal(FromM33(RotY(cp, sp)), FromM33(RotX(cr, sr)));
    FusionGain.FromMul(RotY(cp, sp), RotX(cr, sr));
    ProductOrthonormal(FromM33(RotZ(cy, sy)), FromM33(YX));
    FusionGain.FromMul(RotZ(cy, sy), YX);
    BackToM33(MulM(RotZ(cy, sy), YX));
    EulerRows(cr, sr, cp, sp, cy, sy);
    TurnRows(cy, sy, YX);
    CrossTurn(cy, sy, YX.r0, YX.r1);
    TiltCross(cr, sr, cp, sp);
  }

  lemma SameM33(A: M33, B: M33)
    requires FromM33(A) == FromM33(B)
    ensures A == B
  {
    FusionGain.FromAt(A);
    FusionGain.FromAt(B);
    var M := FromM33(A);
    assert At(M, 0, 0) == A.r0.x && At(M, 0, 1) == A.r0.y && At(M, 0, 2) == A.r0.z;
    assert At(M, 1, 0) == A.r1.x && At(M, 1, 1) == A.r1.y && At(M, 1, 2) == A.r1.z;
    assert At(M, 2, 0) == A.r2.x && At(M, 2, 1) == A.r2.y && At(M, 2, 2) == A.r2.z;
  }

  lemma BackToM33(A: M33)
    requires Orthonormal(FromM33(A))
    ensures MulM(Transpose(A), A) == IDENTITY && MulM(A, Transpose(A)) == IDENTITY
  {
    hide MulM, Transpose, FromM33, Mul, T, Eye;
    FusionGain.FromMul(Transpose(A), A);
    FusionGain.FromMul(A, Transpose(A));
    FromTranspose(A);
    FusionGain.IdentityIsEye();
    SameM33(MulM(Transpose(A), A), IDENTITY);
    SameM33(MulM(A, Transpose(A)), IDENTITY);
  }

  /** The two product loops, on matrices already written out. */
  method TurnThrice(X: M33, Y: M33, Z: M33) returns (R: array2<real>)
    ensures fresh(R) && R.Length0 == 3 && R.Length1 == 3
    ensures Rows(R) == FromM33(MulM(Z, MulM(Y, X)))
  {
    hide Mul, FromM33, MulM, Rows;
    var Rx, Ry, Rz, tmp := new real[3, 3], new real[3, 3], new real[3, 3], new real[3, 3];
    M33Into(X, Rx);
    M33Into(Y, Ry);
    M33Into(Z, Rz);
    R := new real[3, 3];
    MulInto(3, 3, 3, Ry, Rx, tmp);
    MulInto(3, 3, 3, Rz, tmp, R);
    FusionGain.FromMul(Y, X);
    FusionGain.FromMul(Z, MulM(Y, X));
  }

  /** euler_deg_to_rot: whatever the three angles, in degrees, the matrix is a proper rotation. */
  method EulerDegToRot(lib: Libm, euler: V3) returns (R: array2<real>, ghost A: M33)
    requires lib.Valid()
    ensures fresh(R) && R.Length0 == 3 && R.Length1 == 3
    ensures Rows(R) == FromM33(A) && Proper(A) && Orthonormal(Rows(R))
  {
    hide FromM33, Proper, Orthonormal, RotX, RotY, RotZ, MulM, Rows;
    var roll, pitch, yaw := euler.x * (PI / 180.0), euler.y * (PI / 180.0), euler.z * (PI / 180.0);
    var cr, sr, cp, sp, cy, sy := lib.cos(roll), lib.sin(roll), lib.cos(pitch), lib.sin(pitch), lib.cos(yaw), lib.sin(yaw);
    R := TurnThrice(RotX(cr, sr), RotY(cp, sp), RotZ(cy, sy));
    A := EulerRot(cr, sr, cp, sp, cy, sy);
    EulerProper(cr, sr, cp, sp, cy, sy);
  }

  // ---------- validate_rotation ----------

  /** Sum of the squared entries of RᵀR - I. */
  function RotationError(R: M33): real {
    var E := MulM(Transpose(R), R);
    Sq(E.r0.x - 1.0) + Sq(E.r0.y) + Sq(E.r0.z) + Sq(E.r1.x) + Sq(E.r1.y - 1.0) + Sq(E.r1.z)
    + Sq(E.r2.x) + Sq(E.r2.y) + Sq(E.r2.z - 1.0)
  }

  /** validate_rotation. */
  predicate Accepted(lib: Libm, R: M33) {
    !(lib.sqrt(RotationError(R)) > 0.000001) && !(Det(R) < 0.0)
  }

  /** Proper rotations pass; an orthonormal matrix with its handedness flipped does not. */
  lemma AcceptedProper(lib: Libm, R: M33)
    requires lib.Valid() && MulM(Transpose(R), R) == IDENTITY && MulM(R, Transpose(R)) == IDENTITY
    ensures Cross(R.r0, R.r1) == R.r2 ==> Accepted(lib, R)
    ensures Cross(R.r0, R.r1) == Times(-1.0, R.r2) ==> !Accepted(lib, R)
  {
    hide MulM, Transpose, Cross, Det, RotationError;
    NoError(lib);
    NoRotationError(R);
    if Cross(R.r0, R.r1) == R.r2 { ProperDet(R); }
    if Cross(R.r0, R.r1) == Times(-1.0, R.r2) { FlippedDet(R); }
  }

  lemma NoRotationError(R: M33)
    requires MulM(Transpose(R), R) == IDENTITY
    ensures RotationError(R) == 0.0
  {
    hide MulM, Transpose;
  }

  lemma FlippedDet(R: M33)
    requires MulM(R, Transpose(R)) == IDENTITY && Cross(R.r0, R.r1) == Times(-1.0, R.r2)
    ensures Det(R) == -1.0
  {
    hide Cross, MulM, Transpose, Dot, Times;
    TripleCycle(R.r0, R.r1, R.r2);
    RowLength(R);
    DotTimes(-1.0, R.r2, R.r2);
    DotSwap(R.r2, Times(-1.0, R.r2));
  }

  lemma NoError(lib: Libm)
    requires lib.Valid()
    ensures lib.sqrt(0.0) == 0.0
  {
    var q := lib.sqrt(0.0);
    assert q >= 0.0 && q * q == 0.0;
    SqueezeZero(q);
  }

  lemma SqueezeZero(q: real)
    requires q * q == 0.0
    ensures q == 0.0
  {
    if q != 0.0 { SqPositive(q); }
  }

  // ---------- the swing's vertical ----------

  /** z_onto: the least turn taking body Z onto n. */
  function ZOnto(n: V3): M33
    requires n.z != -1.0
  {
    var f := 1.0 / (1.0 + n.z);
    M33(V3(1.0 - n.x * n.x * f, -n.x * n.y * f, n.x),
        V3(-n.x * n.y * f, 1.0 - n.y * n.y * f, n.y),
        V3(-n.x, -n.y, n.z))
  }

  /** It is a rotation, and it does take body Z onto n. */
  lemma ZOntoRotates(n: V3)
    requires Dot(n, n) == 1.0 && n.z > 0.0
    ensures Orthonormal(FromM33(ZOnto(n)))
    ensures MulV(ZOnto(n), V3(0.0, 0.0, 1.0)) == n
  {
    var f := 1.0 / (1.0 + n.z);
    assert f * (1.0 + n.z) == 1.0;
    ZOntoRows(n.x, n.y, n.z, f, n.x * n.x * f, n.x * n.y * f, n.y * n.y * f, ZOnto(n));
    UnitBoth(ZOnto(n));
    ProperOrthonormal(ZOnto(n));
  }

  lemma ZOntoRows(x: real, y: real, z: real, f: real, xxf: real, xyf: real, yyf: real, Q: M33)
    requires x * x + y * y + z * z == 1.0 && f * (1.0 + z) == 1.0
    requires xxf == x * x * f && xyf == x * y * f && yyf == y * y * f
    requires Q == M33(V3(1.0 - xxf, -xyf, x), V3(-xyf, 1.0 - yyf, y), V3(-x, -y, z))
    ensures UnitRows(Q) && UnitRows(Transpose(Q))
  {
    Shares(x, y, z, f, xxf, xyf, yyf);
  }

  /** With s = x² + y² = (1 - z)(1 + z): the products of the shares are shares again. */
  lemma Shares(x: real, y: real, z: real, f: real, xxf: real, xyf: real, yyf: real)
    requires x * x + y * y + z * z == 1.0 && f * (1.0 + z) == 1.0
    requires xxf == x * x * f && xyf == x * y * f && yyf == y * y * f
    ensures xxf * xxf + xyf * xyf == xxf * (1.0 - z)
    ensures yyf * yyf + xyf * xyf == yyf * (1.0 - z)
    ensures xxf * xyf + xyf * yyf == xyf * (1.0 - z)
    ensures xxf + yyf == 1.0 - z
  {
  }

  /** Down in body axes from the accelerometer's mean, when it is about 1 g and within 60° of body Z. */
  function AccelDown(lib: Libm, M: M33, accel: V3): Option<V3> {
    var g := MulV(M, accel);
    var norm := Norm(lib, g);
    if !(norm > 0.5 * CAL_G_MS2 && norm < 1.5 * CAL_G_MS2) then None
    else
      var down := V3(-g.x / norm, -g.y / norm, -g.z / norm);
      if down.z > 0.5 then Some(down) else None
  }

  /** The upward-leaning unit normal of the plane z = p·x + q·y + d, turned down. */
  function PlaneDown(lib: Libm, p: real, q: real): V3
    requires lib.sqrt(1.0 + p * p + q * q) != 0.0
  {
    var z := 1.0 / lib.sqrt(1.0 + p * p + q * q);
    V3(-p * z, -q * z, z)
  }

  /** Whichever way the vertical is chosen, it is a unit vector below the horizon. */
  lemma AccelDownUnit(lib: Libm, M: M33, accel: V3)
    requires lib.Valid() && AccelDown(lib, M, accel).Some?
    ensures var n := AccelDown(lib, M, accel).value; Dot(n, n) == 1.0 && n.z > 0.0
  {
    hide Dot, MulV;
    var g := MulV(M, accel);
    var norm := Norm(lib, g);
    NormLaw(lib, g);
    UnitOver(g, norm);
    NegatedUnit(g, norm);
  }

  lemma NegatedUnit(g: V3, n: real)
    requires n != 0.0 && Dot(V3(g.x / n, g.y / n, g.z / n), V3(g.x / n, g.y / n, g.z / n)) == 1.0
    ensures Dot(V3(-g.x / n, -g.y / n, -g.z / n), V3(-g.x / n, -g.y / n, -g.z / n)) == 1.0
  {
    NegatedQuotient(g.x, n);
    NegatedQuotient(g.y, n);
    NegatedQuotient(g.z, n);
  }

  lemma NegatedQuotient(x: real, n: real)
    requires n != 0.0
    ensures (-x / n) * (-x / n) == (x / n) * (x / n)
  {
    assert -x / n == -(x / n);
  }

  lemma PlaneDownUnit(lib: Libm, p: real, q: real)
    requires lib.Valid()
    ensures lib.sqrt(1.0 + p * p + q * q) != 0.0
    ensures var n := PlaneDown(lib, p, q); Dot(n, n) == 1.0 && n.z > 0.0
  {
    SquareNonneg(p);
    SquareNonneg(q);
    var m := 1.0 + p * p + q * q;
    var r := lib.sqrt(m);
    assert r >= 0.0 && r * r == m;
    RootAtLeastOne(r);
    var z := 1.0 / r;
    PlaneNormal(p, q, r, z, -p * z, -q * z);
  }

  lemma PlaneNormal(p: real, q: real, r: real, z: real, x: real, y: real)
    requires r >= 1.0 && r * r == 1.0 + p * p + q * q && z == 1.0 / r && x == -p * z && y == -q * z
    ensures z > 0.0 && x * x + y * y + z * z == 1.0
  {
    assert z * r == 1.0;
    FactorPositive(z, r);
    Squares3(p, q, z);
    assert (z * z) * (r * r) == 1.0 by { Regroup2(z, r); }
  }

  lemma FactorPositive(z: real, r: real)
    requires r >= 1.0 && z * r == 1.0
    ensures z > 0.0
  {}

  lemma Squares3(p: real, q: real, z: real)
    ensures (-p * z) * (-p * z) + (-q * z) * (-q * z) + z * z == (z * z) * (1.0 + p * p + q * q)
  {}

  lemma Regroup2(z: real, r: real)
    requires z * r == 1.0
    ensures (z * z) * (r * r) == 1.0
  {
    assert (z * r) * (z * r) == 1.0;
  }

  // ---------- the frame change ----------

  /** R = QᵀM: board axes to the swing's. */
  function SwingAxes(Q: Mat, M: Mat): Mat {
    Mul(3, 3, 3, T(3, 3, Q), M)
  }

  /** RᵀSR and Rᵀc: a correction in the swing's axes, stored in the board's. */
  function SoftBoard(R: Mat, S: Mat): Mat {
    Congruence(3, 3, T(3, 3, R), S)
  }

  function HardBoard(R: Mat, c: Mat): Mat {
    Mul(3, 3, 1, T(3, 3, R), c)
  }

  function SubCol(a: Mat, b: Mat): (d: Mat)
    ensures IsMat(d, 3, 1)
  {
    Add(3, 1, a, Scale(3, 1, -1.0, b))
  }

  lemma SwingAxesOrthonormal(Q: Mat, M: Mat)
    requires Orthonormal(Q) && Orthonormal(M)
    ensures Orthonormal(SwingAxes(Q, M))
    ensures Mul(3, 3, 3, M, T(3, 3, SwingAxes(Q, M))) == Q
  {
    hide Mul, T, Eye;
    TransposeOrthonormal(Q);
    ProductOrthonormal(T(3, 3, Q), M);
    TMul(3, 3, 3, T(3, 3, Q), M);
    TT(3, 3, Q);
    MulAssoc(3, 3, 3, 3, M, T(3, 3, M), Q);
    MulEye(3, 3, Q);
  }

  /** R(m - Rᵀc) = Rm - c. */
  lemma OffsetTurned(R: Mat, c: Mat, m: Mat)
    requires Orthonormal(R) && IsMat(c, 3, 1) && IsMat(m, 3, 1)
    ensures Mul(3, 3, 1, R, SubCol(m, HardBoard(R, c))) == SubCol(Mul(3, 3, 1, R, m), c)
  {
    hide Mul, T, Eye, Add, Scale;
    var h := HardBoard(R, c);
    MulAddRight(3, 3, 1, R, m, Scale(3, 1, -1.0, h));
    MulScaleRight(3, 3, 1, -1.0, R, h);
    MulAssoc(3, 3, 3, 1, R, T(3, 3, R), c);
    MulEye(3, 1, c);
  }

  /** The stored board-frame pair corrects exactly as the swing-frame one does, turned back to body axes:
      M·S_board·(m - h_board) = Q·S·(R·m - c). */
  lemma StoredPairCorrects(Q: Mat, M: Mat, S: Mat, c: Mat, m: Mat)
    requires Orthonormal(Q) && Orthonormal(M) && IsMat(S, 3, 3) && IsMat(c, 3, 1) && IsMat(m, 3, 1)
    ensures var R := SwingAxes(Q, M);
            Mul(3, 3, 1, M, Mul(3, 3, 1, SoftBoard(R, S), SubCol(m, HardBoard(R, c))))
            == Mul(3, 3, 1, Q, Mul(3, 3, 1, S, SubCol(Mul(3, 3, 1, R, m), c)))
  {
    hide Mul, T, Eye, SubCol, HardBoard, Orthonormal, SwingAxes;
    var R := SwingAxes(Q, M);
    var Rt := T(3, 3, R);
    var d, e := SubCol(m, HardBoard(R, c)), SubCol(Mul(3, 3, 1, R, m), c);
    SwingAxesOrthonormal(Q, M);
    assert IsMat(R, 3, 3) by { OrthonormalSize(R); }
    OffsetTurned(R, c, m);
    TT(3, 3, R);
    MulAssoc(3, 3, 3, 1, Mul(3, 3, 3, Rt, S), R, d);
    MulAssoc(3, 3, 3, 1, Rt, S, e);
    MulAssoc(3, 3, 3, 1, M, Rt, Mul(3, 3, 1, S, e));
  }

  lemma OrthonormalSize(Q: Mat)
    requires Orthonormal(Q)
    ensures IsMat(Q, 3, 3)
  {}

  // ---------- as the loops compute it ----------

  /** The vertical cal_mag_fit takes: gravity's when it has an accel sample, else the normal of the swing plane. */
  function Vertical(lib: Libm, M: M33, accel: Option<V3>, p: real, q: real): V3
    requires lib.Valid()
  {
    PlaneDownUnit(lib, p, q);
    if accel.Some? && AccelDown(lib, M, accel.value).Some? then AccelDown(lib, M, accel.value).value
    else PlaneDown(lib, p, q)
  }

  /** From any proper mount and whichever vertical is chosen, the pair stored corrects every reading as the swing
      frame's own centre and block do. */
  lemma AnySwingCorrects(lib: Libm, M: M33, accel: Option<V3>, p: real, q: real, S: Mat, c: Mat, m: Mat)
    requires lib.Valid() && Orthonormal(FromM33(M)) && IsMat(S, 3, 3) && IsMat(c, 3, 1) && IsMat(m, 3, 1)
    ensures var n := Vertical(lib, M, accel, p, q);
            var Q := FromM33(ZOnto(n));
            var R := SwingAxes(Q, FromM33(M));
            && Dot(n, n) == 1.0 && n.z > 0.0 && MulV(ZOnto(n), V3(0.0, 0.0, 1.0)) == n
            && Orthonormal(Q) && Orthonormal(R)
            && Mul(3, 3, 1, FromM33(M), Mul(3, 3, 1, SoftBoard(R, S), SubCol(m, HardBoard(R, c))))
               == Mul(3, 3, 1, Q, Mul(3, 3, 1, S, SubCol(Mul(3, 3, 1, R, m), c)))
  {
    hide AccelDown, PlaneDown, ZOnto, Orthonormal, SwingAxes, SoftBoard, HardBoard, SubCol, Mul, Libm.Valid, Dot, MulV, FromM33;
    PlaneDownUnit(lib, p, q);
    if accel.Some? && AccelDown(lib, M, accel.value).Some? { AccelDownUnit(lib, M, accel.value); }
    var n := Vertical(lib, M, accel, p, q);
    ZOntoRotates(n);
    var Q := FromM33(ZOnto(n));
    SwingAxesOrthonormal(Q, FromM33(M));
    StoredPairCorrects(Q, FromM33(M), S, c, m);
  }

  /** RQ[i][j] = Q[0][i]·M[0][j] + Q[1][i]·M[1][j] + Q[2][i]·M[2][j]. */
  method SwingAxesInto(Q: array2<real>, M: array2<real>, R: array2<real>)
    requires Q.Length0 == 3 && Q.Length1 == 3 && M.Length0 == 3 && M.Length1 == 3 && R.Length0 == 3 && R.Length1 == 3
    requires R != Q && R != M
    modifies R
    ensures Rows(R) == SwingAxes(Rows(Q), Rows(M))
  {
    hide Mul, At, T, Inner;
    ghost var q, m := Rows(Q), Rows(M);
    for i := 0 to 3
      invariant forall x, y :: 0 <= x < i && 0 <= y < 3 ==> R[x, y] == At(SwingAxes(q, m), x, y)
    {
      for j := 0 to 3
        invariant forall x, y :: 0 <= x < i && 0 <= y < 3 ==> R[x, y] == At(SwingAxes(q, m), x, y)
        invariant forall y :: 0 <= y < j ==> R[i, y] == At(SwingAxes(q, m), i, y)
      {
        var v := Q[0, i] * M[0, j] + Q[1, i] * M[1, j] + Q[2, i] * M[2, j];
        ThreeTerms(q, m, i, j, Q[0, i], Q[1, i], Q[2, i], M[0, j], M[1, j], M[2, j], v);
        R[i, j] := v;
      }
    }
    RowsAre(R, SwingAxes(q, m));
  }

  lemma ThreeTerms(q: Mat, m: Mat, i: nat, j: nat, a: real, b: real, c: real, x: real, y: real, z: real, v: real)
    requires i < 3 && j < 3 && a == At(q, 0, i) && b == At(q, 1, i) && c == At(q, 2, i)
    requires x == At(m, 0, j) && y == At(m, 1, j) && z == At(m, 2, j) && v == a * x + b * y + c * z
    ensures At(SwingAxes(q, m), i, j) == v
  {
    hide At;
    var f := k => At(T(3, 3, q), i, k) * At(m, k, j);
    MulAt(3, 3, 3, T(3, 3, q), m, i, j);
    SumExt(3, k => At(T(3, 3, q), i, k) * At(m, k, j), f);
    Sum3(f);
    FusionRuns.TAt(3, 3, q, i, 0);
    FusionRuns.TAt(3, 3, q, i, 1);
    FusionRuns.TAt(3, 3, q, i, 2);
  }

  /** soft_iron[i][j] = Σ_k Σ_l R[k][i]·S[k][l]·R[l][j]. */
  method SoftBoardInto(R: array2<real>, S: array2<real>, B: array2<real>)
    requires R.Length0 == 3 && R.Length1 == 3 && S.Length0 == 3 && S.Length1 == 3 && B.Length0 == 3 && B.Length1 == 3
    requires B != R && B != S
    modifies B
    ensures Rows(B) == SoftBoard(Rows(R), Rows(S))
  {
    hide Mul, At, T, Congruence, DoubleSum;
    ghost var r, s := Rows(R), Rows(S);
    for i := 0 to 3
      invariant forall x, y :: 0 <= x < i && 0 <= y < 3 ==> B[x, y] == At(SoftBoard(r, s), x, y)
    {
      for j := 0 to 3
        invariant forall x, y :: 0 <= x < i && 0 <= y < 3 ==> B[x, y] == At(SoftBoard(r, s), x, y)
        invariant forall y :: 0 <= y < j ==> B[i, y] == At(SoftBoard(r, s), i, y)
      {
        var v := SoftEntry(R, S, i, j);
        DoubleSumIs(3, 3, T(3, 3, r), s, i, j);
        B[i, j] := v;
      }
    }
    RowsAre(B, SoftBoard(r, s));
  }

  method SoftEntry(R: array2<real>, S: array2<real>, i: nat, j: nat) returns (v: real)
    requires R.Length0 == 3 && R.Length1 == 3 && S.Length0 == 3 && S.Length1 == 3 && i < 3 && j < 3
    ensures v == DoubleSum(3, T(3, 3, Rows(R)), Rows(S), i, j)
  {
    hide At, T, RowTerm;
    ghost var K, N := T(3, 3, Rows(R)), Rows(S);
    v := 0.0;
    for k := 0 to 3
      invariant v == Sum(k, DoubleTerm(3, K, N, i, j))
    {
      ghost var v0 := v;
      for l := 0 to 3
        invariant v == v0 + Sum(l, RowTerm(K, N, i, j, k))
      {
        var term := R[k, i] * S[k, l] * R[l, j];
        FusionRuns.TAt(3, 3, Rows(R), i, k);
        FusionRuns.TAt(3, 3, Rows(R), j, l);
        OneTerm(K, N, i, j, k, l, R[k, i], S[k, l], R[l, j], term);
        v := v + term;
      }
    }
  }

  lemma OneTerm(K: Mat, N: Mat, i: nat, j: nat, k: nat, l: nat, a: real, b: real, c: real, t: real)
    requires a == At(K, i, k) && b == At(N, k, l) && c == At(K, j, l) && t == a * b * c
    ensures RowTerm(K, N, i, j, k)(l) == t
  {
    hide At;
    assert t == a * (b * c);
  }
}
