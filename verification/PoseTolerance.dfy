/**
  How closely a rotation comes back from its fields, and a component from the
  preview or the panel: within twice the pose tolerance, entry by entry.
*/
module PoseTolerance {
  import opened Results
  import opened Quaternions
  import opened EulerFields
  import opened Assembly

  const TOLERANCE: real := 2.0 * POSE_EPSILON

  predicate Close(a: real, b: real, d: real) {
    -d <= a - b <= d
  }

  predicate CloseVec(u: Vec, v: Vec, d: real) {
    Close(u.x, v.x, d) && Close(u.y, v.y, d) && Close(u.z, v.z, d)
  }

  // -- the third column ------------------------------------------------------

  /** A product of vectors without a scalar part turns with its factors. */
  lemma ProductTurns(q: Quat, u: Vec, v: Vec, w: Vec)
    requires Unit(q) && Multiply(Pure(u), Pure(v)) == Pure(w)
    ensures Multiply(Pure(Rotate(q, u)), Pure(Rotate(q, v))) == Pure(Rotate(q, w))
  {
    RotateIsSandwich(q, u);
    RotateIsSandwich(q, v);
    RotateIsSandwich(q, w);
    SandwichMultiplies(q, Conjugate(q), Pure(u), Pure(v));
  }

  lemma UnitsMultiply()
    ensures Multiply(Pure(E1), Pure(E2)) == Pure(E3)
  {
  }

  lemma SandwichMultiplies(q: Quat, c: Quat, i: Quat, j: Quat)
    requires Unit(q) && c == Conjugate(q)
    ensures Multiply(Multiply(q, Multiply(i, c)), Multiply(q, Multiply(j, c))) ==
            Multiply(q, Multiply(Multiply(i, j), c))
  {
    var jc := Multiply(j, c);
    MultiplyAssociates(q, Multiply(i, c), Multiply(q, jc));
    MultiplyAssociates(i, c, Multiply(q, jc));
    MultiplyAssociates(c, q, jc);
    ConjugateInverts(q);
    MultiplyIdentity(jc);
    MultiplyAssociates(i, j, c);
  }

  lemma ProductIsCross(a: Vec, b: Vec, c: Vec)
    requires Multiply(Pure(a), Pure(b)) == Pure(c)
    ensures c.x == a.y * b.z - a.z * b.y && c.y == a.z * b.x - a.x * b.z
  {
  }

  // -- bounds ----------------------------------------------------------------

  lemma AbsBound(a: real, k: real)
    requires a * a <= k * k && k >= 0.0
    ensures -k <= a <= k
  {
    if a > k {
      SmallerSquare(k, a);
    } else if -a > k {
      SmallerSquare(k, -a);
    }
  }

  lemma ProductBound(a: real, b: real, m: real, n: real)
    requires -m <= a <= m && -n <= b <= n
    ensures -(m * n) <= a * b <= m * n
  {
    assert (m - a) * (n - b) >= 0.0 && (m + a) * (n + b) >= 0.0;
    assert (m - a) * (n + b) >= 0.0 && (m + a) * (n - b) >= 0.0;
  }

  lemma SmallTimesSmall(k: real)
    requires 0.0 <= k <= 1.0
    ensures 0.0 <= k * k <= k
  {
  }

  lemma UnitRange(s: real, c: real)
    requires s * s + c * c == 1.0
    ensures -1.0 <= s <= 1.0 && -1.0 <= c <= 1.0
  {
    AbsBound(s, 1.0);
    AbsBound(c, 1.0);
  }

  lemma SideBound(x: real, y: real, z: real, s: real, k: real)
    requires x * x + y * y + z * z == 1.0 && z == -s && s * s + k * k == 1.0 && k >= 0.0
    ensures -k <= x <= k && -k <= y <= k
  {
    AbsBound(x, k);
    AbsBound(y, k);
  }

  lemma ScaledBound(t: real, k: real, tk: real)
    requires -1.0 <= t <= 1.0 && k >= 0.0 && tk == t * k
    ensures -k <= tk <= k
  {
    ProductBound(t, k, 1.0, k);
  }

  lemma RadiusNearOne(r: real, t: real, k: real)
    requires r >= 0.0 && r * r + t * t == 1.0 && -k <= t <= k && 0.0 <= k <= 1.0
    ensures 0.0 <= 1.0 - r <= k * k
  {
    AbsBound(r, 1.0);
    SmallTimesSmall(r);
    ProductBound(t, t, k, k);
  }

  lemma NearlyScaled(r: real, t: real, e: real, d: real)
    requires 0.0 <= 1.0 - r <= d && -1.0 <= t <= 1.0 && e == r * t
    ensures Close(e, t, d)
  {
    ProductBound(1.0 - r, t, d, 1.0);
    assert (1.0 - r) * t == t - e;
  }

  lemma ThirdEntryClose(cross: real, e: real, s: real, t: real, d: real, k: real, se: real, st: real)
    requires -d <= cross <= d && Close(e, t, d) && d <= k && -1.0 <= s <= 1.0
    requires se == s * e && st == s * t
    ensures Close(cross + se, st, 2.0 * k)
  {
    var off := e - t;
    ProductBound(s, off, 1.0, d);
    assert s * off == se - st;
  }

  // -- column by column ------------------------------------------------------

  /** Within the lock the first column is no longer than the cosine. */
  lemma FirstColumnClose(a: Vec, s: real, k: real, sz: real, cz: real, pk: real, qk: real)
    requires UnitVec(a) && a.z == -s && s * s + k * k == 1.0 && k >= 0.0 && sz * sz + cz * cz == 1.0
    requires pk == cz * k && qk == sz * k
    ensures -k <= a.x <= k && -k <= a.y <= k
    ensures CloseVec(a, Vec(pk, qk, -s), 2.0 * k)
  {
    SideBound(a.x, a.y, a.z, s, k);
    UnitRange(sz, cz);
    ScaledBound(cz, k, pk);
    ScaledBound(sz, k, qk);
  }

  /** The second column is the fields' own but for a radius near one. */
  lemma SecondColumnClose(b: Vec, r: real, k: real, sz: real, cz: real)
    requires UnitVec(b) && -b.x == r * sz && b.y == r * cz && r >= 0.0 && sz * sz + cz * cz == 1.0
    requires -k <= b.z <= k && 0.0 <= k <= 1.0
    ensures Close(-b.x, sz, k * k) && Close(b.y, cz, k * k)
    ensures CloseVec(b, Vec(-sz, cz, 0.0), k)
  {
    ScaledCircle(-b.x, b.y, r, sz, cz);
    assert (-b.x) * (-b.x) == b.x * b.x;
    RadiusNearOne(r, b.z, k);
    SmallTimesSmall(k);
    UnitRange(sz, cz);
    NearlyScaled(r, sz, -b.x, k * k);
    NearlyScaled(r, cz, b.y, k * k);
  }

  lemma ThirdEntry(l: real, m: real, e: real, s: real, t: real, k: real, entry: real, st: real)
    requires -k <= l <= k && -k <= m <= k && 0.0 <= k <= 1.0 && Close(e, t, k * k) && -1.0 <= s <= 1.0
    requires entry == l * m + s * e && st == s * t
    ensures Close(entry, st, 2.0 * k)
  {
    ProductBound(l, m, k, k);
    SmallTimesSmall(k);
    ThirdEntryClose(l * m, e, s, t, k * k, k, s * e, st);
  }

  lemma ThirdColumnClose(a: Vec, b: Vec, c: Vec, s: real, k: real, sz: real, cz: real, sc: real, ss: real)
    requires c.x == a.y * b.z - a.z * b.y && c.y == a.z * b.x - a.x * b.z && a.z == -s
    requires -k <= a.x <= k && -k <= a.y <= k && -k <= b.z <= k && -k <= c.z <= k && 0.0 <= k <= 1.0
    requires Close(-b.x, sz, k * k) && Close(b.y, cz, k * k) && -1.0 <= s <= 1.0
    requires sc == s * cz && ss == s * sz
    ensures CloseVec(c, Vec(sc, ss, k), 2.0 * k)
  {
    CrossParts(a, b, c, s);
    ThirdEntry(a.y, b.z, b.y, s, cz, k, c.x, sc);
    ThirdEntry(-a.x, b.z, -b.x, s, sz, k, c.y, ss);
  }

  lemma CrossParts(a: Vec, b: Vec, c: Vec, s: real)
    requires c.x == a.y * b.z - a.z * b.y && c.y == a.z * b.x - a.x * b.z && a.z == -s
    ensures c.x == a.y * b.z + s * b.y && c.y == (-a.x) * b.z + s * (-b.x)
  {
  }

  // -- the rotation that comes back ------------------------------------------

  /** The axes are turned to within a distance of one another. */
  predicate NearTurn(p: Quat, q: Quat, d: real) {
    && CloseVec(Rotate(p, E1), Rotate(q, E1), d)
    && CloseVec(Rotate(p, E2), Rotate(q, E2), d)
    && CloseVec(Rotate(p, E3), Rotate(q, E3), d)
  }

  lemma ThirdColumnOf(q: Quat)
    ensures Rotate(q, E3) == Vec(MatrixOf(q).m02, MatrixOf(q).m12, MatrixOf(q).m22)
  {
    RotateIsMatrix(q, E3);
    ApplyToAxes(MatrixOf(q));
  }

  /** What is known of a rotation by its columns. */
  ghost predicate IsFrame(a: Vec, b: Vec, c: Vec) {
    && UnitVec(a) && UnitVec(b)
    && a.z * a.z + b.z * b.z + c.z * c.z == 1.0
    && c.x == a.y * b.z - a.z * b.y && c.y == a.z * b.x - a.x * b.z
  }

  lemma FrameIsUnit(q: Quat)
    requires Unit(q)
    ensures UnitVec(Rotate(q, E1)) && UnitVec(Rotate(q, E2))
  {
    RotateKeepsUnit(q, E1);
    RotateKeepsUnit(q, E2);
  }

  lemma RowIsUnit(m: Matrix, row: Vec, a: Vec, b: Vec, c: Vec)
    requires UnitVec(row) && row == Vec(m.m20, m.m21, m.m22) && a.z == m.m20 && b.z == m.m21 && c.z == m.m22
    ensures a.z * a.z + b.z * b.z + c.z * c.z == 1.0
  {
  }

  lemma FrameRow(q: Quat, a: Vec, b: Vec, c: Vec)
    requires Unit(q) && a == Rotate(q, E1) && b == Rotate(q, E2) && c == Rotate(q, E3)
    ensures a.z * a.z + b.z * b.z + c.z * c.z == 1.0
  {
    ConjugateInverts(q);
    RotateKeepsUnit(Conjugate(q), E3);
    ColumnsOf(q);
    ThirdColumnOf(q);
    RowIsUnit(MatrixOf(q), Rotate(Conjugate(q), E3), a, b, c);
  }

  lemma FrameCross(q: Quat, a: Vec, b: Vec, c: Vec)
    requires Unit(q) && a == Rotate(q, E1) && b == Rotate(q, E2) && c == Rotate(q, E3)
    ensures c.x == a.y * b.z - a.z * b.y && c.y == a.z * b.x - a.x * b.z
  {
    UnitsMultiply();
    ProductTurns(q, E1, E2, E3);
    ProductIsCross(a, b, c);
  }

  lemma ColumnsAreAFrame(q: Quat, a: Vec, b: Vec, c: Vec)
    requires Unit(q) && a == Rotate(q, E1) && b == Rotate(q, E2) && c == Rotate(q, E3)
    ensures IsFrame(a, b, c)
  {
    FrameIsUnit(q);
    FrameRow(q, a, b, c);
    FrameCross(q, a, b, c);
  }

  /** A frame read within the lock is close to the frame of its fields. */
  lemma FrameClose(a: Vec, b: Vec, c: Vec, r: real, s: real, k: real, sz: real, cz: real, pk: real, qk: real, sc: real,
                   ss: real)
    requires IsFrame(a, b, c) && a.z == -s && -b.x == r * sz && b.y == r * cz && r >= 0.0
    requires s * s + k * k == 1.0 && sz * sz + cz * cz == 1.0 && 0.0 <= k <= 1.0
    requires pk == cz * k && qk == sz * k && sc == s * cz && ss == s * sz
    ensures CloseVec(a, Vec(pk, qk, -s), 2.0 * k)
    ensures CloseVec(b, Vec(-sz, cz, 0.0), 2.0 * k)
    ensures CloseVec(c, Vec(sc, ss, k), 2.0 * k)
  {
    FirstColumnClose(a, s, k, sz, cz, pk, qk);
    SideBound(b.z, c.z, a.z, s, k);
    SecondColumnClose(b, r, k, sz, cz);
    SmallTimesSmall(k);
    UnitRange(s, k);
    ThirdColumnClose(a, b, c, s, k, sz, cz, sc, ss);
  }

  lemma EulerThirdColumn(e: Euler)
    requires Normalized(e) && Rotate(AboutX(e.x), E3) == E3
    ensures Rotate(QuaternionFromEuler(e), E3) == Vec(e.y.Sin() * e.z.Cos(), e.y.Sin() * e.z.Sin(), e.y.Cos())
  {
    EulerTurns(e, E3);
    TurnY(e.y, e.y.Cos(), e.y.Sin(), E3);
    TurnZ(e.z, e.z.Cos(), e.z.Sin(), Vec(e.y.Sin(), 0.0, e.y.Cos()));
  }

  /** The other columns of the rotation rebuilt from fields without a roll. */
  lemma RebuiltSecond(e: Euler, sz: real, cz: real)
    requires Normalized(e) && Rotate(AboutX(e.x), E2) == E2 && sz == e.z.Sin() && cz == e.z.Cos()
    ensures Rotate(QuaternionFromEuler(e), E2) == Vec(-sz, cz, 0.0)
  {
    EulerSecondColumn(e);
  }

  lemma RebuiltThird(e: Euler, s: real, k: real, sz: real, cz: real)
    requires Normalized(e) && Rotate(AboutX(e.x), E3) == E3
    requires s == e.y.Sin() && k == e.y.Cos() && sz == e.z.Sin() && cz == e.z.Cos()
    ensures Rotate(QuaternionFromEuler(e), E3) == Vec(s * cz, s * sz, k)
  {
    EulerThirdColumn(e);
  }

  lemma LockedReadsYaw(m: Matrix, e: Euler)
    requires ReadFrom(m, e) && Locked(e)
    ensures IsAtan2(e.z, -m.m01, m.m11)
  {
  }

  lemma ReadsColumns(q: Quat, e: Euler, a: Vec, b: Vec)
    requires Unit(q) && ReadFrom(MatrixOf(q), e) && Locked(e) && a == Rotate(q, E1) && b == Rotate(q, E2)
    ensures a.z == -e.y.Sin() && IsAtan2(e.z, -b.x, b.y)
  {
    PitchIsEntry(q, e);
    ColumnsOf(q);
    LockedReadsYaw(MatrixOf(q), e);
  }

  lemma CloserIsClose(u: Vec, v: Vec, d: real, more: real)
    requires CloseVec(u, v, d) && d <= more
    ensures CloseVec(v, u, more)
  {
  }

  lemma FramesNear(a: Vec, b: Vec, c: Vec, u: Vec, v: Vec, w: Vec, r: real, s: real, k: real, sz: real, cz: real)
    requires IsFrame(a, b, c) && a.z == -s && -b.x == r * sz && b.y == r * cz && r >= 0.0
    requires s * s + k * k == 1.0 && sz * sz + cz * cz == 1.0 && 0.0 <= k <= POSE_EPSILON
    requires u == Vec(cz * k, sz * k, -s) && v == Vec(-sz, cz, 0.0) && w == Vec(s * cz, s * sz, k)
    ensures CloseVec(u, a, TOLERANCE) && CloseVec(v, b, TOLERANCE) && CloseVec(w, c, TOLERANCE)
  {
    FrameClose(a, b, c, r, s, k, sz, cz, u.x, u.y, w.x, w.y);
    CloserIsClose(a, u, 2.0 * k, TOLERANCE);
    CloserIsClose(b, v, 2.0 * k, TOLERANCE);
    CloserIsClose(c, w, 2.0 * k, TOLERANCE);
  }

  /** What locked fields say of the columns of the rotation they were read
      off, `r` being the radius of the yaw. */
  ghost predicate ReadsLocked(a: Vec, b: Vec, r: real, s: real, k: real, sz: real, cz: real) {
    && 0.0 <= k <= POSE_EPSILON && r >= 0.0
    && a.z == -s && -b.x == r * sz && b.y == r * cz
  }

  lemma LockedPitch(m: Matrix, e: Euler, k: real)
    requires ReadFrom(m, e) && Locked(e) && k == e.y.Cos()
    ensures 0.0 <= k <= POSE_EPSILON
  {
  }

  lemma LockedReads(q: Quat, e: Euler, a: Vec, b: Vec, s: real, k: real, sz: real, cz: real) returns (r: real)
    requires Unit(q) && ReadFrom(MatrixOf(q), e) && Locked(e) && a == Rotate(q, E1) && b == Rotate(q, E2)
    requires s == e.y.Sin() && k == e.y.Cos() && sz == e.z.Sin() && cz == e.z.Cos()
    ensures ReadsLocked(a, b, r, s, k, sz, cz)
  {
    LockedPitch(MatrixOf(q), e, k);
    ReadsColumns(q, e, a, b);
    r := RadiusOf(e.z, -b.x, b.y, sz, cz);
  }

  /** The roll turns nothing. */
  ghost predicate Unrolled(e: Euler) {
    forall v :: Rotate(AboutX(e.x), v) == v
  }

  lemma IdentityTurnsNothing(q: Quat)
    requires q == IDENTITY
    ensures forall v :: Rotate(q, v) == v
  {
    forall v ensures Rotate(q, v) == v {
      RotateIdentity(v);
    }
  }

  lemma AboutXUnturned(x: Angle)
    requires x == NO_TURN
    ensures AboutX(x) == IDENTITY
  {
  }

  lemma LockedIsUnrolled(m: Matrix, e: Euler)
    requires ReadFrom(m, e) && Locked(e)
    ensures Unrolled(e)
  {
    AboutXUnturned(e.x);
    IdentityTurnsNothing(AboutX(e.x));
  }

  lemma AnglesAreUnit(e: Euler, s: real, k: real, sz: real, cz: real)
    requires Normalized(e) && s == e.y.Sin() && k == e.y.Cos() && sz == e.z.Sin() && cz == e.z.Cos()
    ensures s * s + k * k == 1.0 && sz * sz + cz * cz == 1.0
  {
    UnitAngle(e.y);
    UnitAngle(e.z);
  }

  lemma RebuiltNear(q: Quat, e: Euler, p: Quat, a: Vec, b: Vec, r: real, s: real, k: real, sz: real, cz: real)
    requires Unit(q) && Normalized(e) && p == QuaternionFromEuler(e) && Unrolled(e)
    requires a == Rotate(q, E1) && b == Rotate(q, E2) && ReadsLocked(a, b, r, s, k, sz, cz)
    requires s == e.y.Sin() && k == e.y.Cos() && sz == e.z.Sin() && cz == e.z.Cos()
    ensures NearTurn(p, q, TOLERANCE)
  {
    var c := Rotate(q, E3);
    var u, v, w := Rotate(p, E1), Rotate(p, E2), Rotate(p, E3);
    AnglesAreUnit(e, s, k, sz, cz);
    ColumnsAreAFrame(q, a, b, c);
    FirstColumnIs(e, s, k, sz, cz);
    RebuiltSecond(e, sz, cz);
    RebuiltThird(e, s, k, sz, cz);
    FramesNear(a, b, c, u, v, w, r, s, k, sz, cz);
  }

  lemma LockedNear(q: Quat, e: Euler, p: Quat, a: Vec, b: Vec, s: real, k: real, sz: real, cz: real)
    requires Unit(q) && Normalized(e) && ReadFrom(MatrixOf(q), e) && Locked(e) && p == QuaternionFromEuler(e)
    requires a == Rotate(q, E1) && b == Rotate(q, E2) && Unrolled(e)
    requires s == e.y.Sin() && k == e.y.Cos() && sz == e.z.Sin() && cz == e.z.Cos()
    ensures NearTurn(p, q, TOLERANCE)
  {
    var r := LockedReads(q, e, a, b, s, k, sz, cz);
    RebuiltNear(q, e, p, a, b, r, s, k, sz, cz);
  }

  lemma SameIsNear(p: Quat, q: Quat)
    requires Unit(q) && (p == q || p == Neg(q))
    ensures NearTurn(p, q, TOLERANCE)
  {
    RotateIgnoresSign(q, E1);
    RotateIgnoresSign(q, E2);
    RotateIgnoresSign(q, E3);
  }

  lemma ReadNear(q: Quat, e: Euler, p: Quat)
    requires Unit(q) && Normalized(e) && ReadFrom(MatrixOf(q), e) && p == QuaternionFromEuler(e)
    ensures NearTurn(p, q, TOLERANCE)
  {
    if Locked(e) {
      LockedIsUnrolled(MatrixOf(q), e);
      LockedNear(q, e, p, Rotate(q, E1), Rotate(q, E2), e.y.Sin(), e.y.Cos(), e.z.Sin(), e.z.Cos());
    } else {
      FreeFieldsSuffice(q, e);
      SameIsNear(p, q);
    }
  }

  /** Every entry within a distance. */
  predicate Near(m: Matrix, n: Matrix, d: real) {
    && Close(m.m00, n.m00, d) && Close(m.m01, n.m01, d) && Close(m.m02, n.m02, d)
    && Close(m.m10, n.m10, d) && Close(m.m11, n.m11, d) && Close(m.m12, n.m12, d)
    && Close(m.m20, n.m20, d) && Close(m.m21, n.m21, d) && Close(m.m22, n.m22, d)
  }

  lemma NearByColumns(p: Quat, q: Quat, d: real)
    requires NearTurn(p, q, d)
    ensures Near(MatrixOf(p), MatrixOf(q), d)
  {
    ColumnsOf(p);
    ColumnsOf(q);
    ThirdColumnOf(p);
    ThirdColumnOf(q);
  }

  /** Fields read off any rotation rebuild it to within twice the pose
      tolerance in every entry of its matrix, within the lock or not. */
  lemma FieldsWithinTolerance(q: Quat, e: Euler)
    requires Unit(q) && IsEulerFromQuaternion(q, e)
    ensures Near(MatrixOf(QuaternionFromEuler(e)), MatrixOf(q), TOLERANCE)
  {
    FieldsReadTheMatrix(q, e);
    ReadNear(q, e, QuaternionFromEuler(e));
    NearByColumns(QuaternionFromEuler(e), q, TOLERANCE);
  }

  // -- points ----------------------------------------------------------------

  function Abs(a: real): real {
    if a < 0.0 then -a else a
  }

  /** How far along the axes a vector reaches in all. */
  function Reach(v: Vec): real {
    Abs(v.x) + Abs(v.y) + Abs(v.z)
  }

  lemma AbsScaled(a: real, x: real, d: real)
    requires -d <= a <= d
    ensures -(d * Abs(x)) <= a * x <= d * Abs(x)
  {
    ProductBound(a, x, d, Abs(x));
  }

  lemma ReachScales(v: Vec, d: real, x: real, y: real, z: real)
    requires x == d * Abs(v.x) && y == d * Abs(v.y) && z == d * Abs(v.z)
    ensures d * Reach(v) == x + y + z
  {
  }

  lemma Differs(a: real, i: real, x: real, d: real, ax: real, ix: real, dx: real)
    requires Close(a, i, d) && ax == a * x && ix == i * x && dx == d * Abs(x)
    ensures Close(ax, ix, dx)
  {
    AbsScaled(a - i, x, d);
    assert (a - i) * x == ax - ix;
  }

  lemma SumsClose(a: real, b: real, c: real, i: real, j: real, k: real, x: real, y: real, z: real)
    requires Close(a, i, x) && Close(b, j, y) && Close(c, k, z)
    ensures Close(a + b + c, i + j + k, x + y + z)
  {
  }

  /** A row of a matrix across a vector. */
  function Across(row: Vec, v: Vec): real {
    row.x * v.x + row.y * v.y + row.z * v.z
  }

  lemma PartsClose(row: Vec, other: Vec, v: Vec, d: real, p: Vec, o: Vec, m: Vec)
    requires CloseVec(row, other, d)
    requires p == Vec(row.x * v.x, row.y * v.y, row.z * v.z) && o == Vec(other.x * v.x, other.y * v.y, other.z * v.z)
    requires m == Vec(d * Abs(v.x), d * Abs(v.y), d * Abs(v.z))
    ensures Close(p.x, o.x, m.x) && Close(p.y, o.y, m.y) && Close(p.z, o.z, m.z)
  {
    Differs(row.x, other.x, v.x, d, p.x, o.x, m.x);
    Differs(row.y, other.y, v.y, d, p.y, o.y, m.y);
    Differs(row.z, other.z, v.z, d, p.z, o.z, m.z);
  }

  lemma AcrossIs(row: Vec, v: Vec, p: Vec)
    requires p == Vec(row.x * v.x, row.y * v.y, row.z * v.z)
    ensures Across(row, v) == p.x + p.y + p.z
  {
  }

  lemma AcrossClose(row: Vec, other: Vec, v: Vec, d: real, bound: real)
    requires CloseVec(row, other, d) && bound == d * Reach(v)
    ensures Close(Across(row, v), Across(other, v), bound)
  {
    var p, o := Vec(row.x * v.x, row.y * v.y, row.z * v.z), Vec(other.x * v.x, other.y * v.y, other.z * v.z);
    var m := Vec(d * Abs(v.x), d * Abs(v.y), d * Abs(v.z));
    PartsClose(row, other, v, d, p, o, m);
    SumsClose(p.x, p.y, p.z, o.x, o.y, o.z, m.x, m.y, m.z);
    AcrossIs(row, v, p);
    AcrossIs(other, v, o);
    ReachScales(v, d, m.x, m.y, m.z);
  }

  lemma ApplyIsAcross(m: Matrix, v: Vec)
    ensures Apply(m, v) ==
            Vec(Across(Vec(m.m00, m.m01, m.m02), v), Across(Vec(m.m10, m.m11, m.m12), v),
                Across(Vec(m.m20, m.m21, m.m22), v))
  {
  }

  lemma ApplyClose(m: Matrix, n: Matrix, v: Vec, d: real)
    requires Near(m, n, d)
    ensures CloseVec(Apply(m, v), Apply(n, v), d * Reach(v))
  {
    ApplyIsAcross(m, v);
    ApplyIsAcross(n, v);
    AcrossClose(Vec(m.m00, m.m01, m.m02), Vec(n.m00, n.m01, n.m02), v, d, d * Reach(v));
    AcrossClose(Vec(m.m10, m.m11, m.m12), Vec(n.m10, n.m11, n.m12), v, d, d * Reach(v));
    AcrossClose(Vec(m.m20, m.m21, m.m22), Vec(n.m20, n.m21, n.m22), v, d, d * Reach(v));
  }

  lemma TurnClose(p: Quat, q: Quat, v: Vec, d: real)
    requires Near(MatrixOf(p), MatrixOf(q), d)
    ensures CloseVec(Rotate(p, v), Rotate(q, v), d * Reach(v))
  {
    RotateIsMatrix(p, v);
    RotateIsMatrix(q, v);
    ApplyClose(MatrixOf(p), MatrixOf(q), v, d);
  }

  lemma MovedClose(u: Vec, v: Vec, pivot: Vec, delta: Vec, d: real)
    requires CloseVec(u, v, d)
    ensures CloseVec(Add(Add(pivot, u), delta), Add(Add(pivot, v), delta), d)
  {
  }

  /** The target takes each point where the exact turn between the poses
      would. */
  lemma TargetMovesPoints(current: Pose, target: Pose, pivot: Vec, preview: MoveRotatePreview, turn: Quat, v: Vec)
    requires ValidPose(current) && ValidPose(target) && IsPreviewBetween(current, target, pivot, preview)
    requires turn == TurnBetween(current, target)
    ensures Place(target, v) == Add(Add(pivot, Rotate(turn, Sub(Place(current, v), pivot))), preview.translation)
  {
    TurnIsUnit(current, target);
    TurnReaches(current, target, turn);
    TranslationReaches(current, target, pivot, preview.translation, Rotate(turn, pivot),
                       Rotate(turn, current.translation));
    TurnedAboutPivot(current, preview.translation, pivot, turn, target, v);
  }

  // -- previews too small to apply -------------------------------------------

  /** The half angle is no shorter than its sine. */
  predicate Subtended(t: Angle) {
    var half := Abs(t.radians) / 2.0;
    -half <= t.sinHalf <= half
  }

  predicate AllSubtended(e: Euler) {
    Subtended(e.x) && Subtended(e.y) && Subtended(e.z)
  }

  /** An angle whose sine is below a bound and whose cosine is near one. */
  predicate Tiny(s: real, c: real, d: real) {
    -d <= s <= d && 0.0 <= 1.0 - c <= d * d
  }

  lemma HalfAngleTiny(sh: real, ch: real, s: real, c: real, d: real)
    requires sh * sh + ch * ch == 1.0 && -d <= 2.0 * sh <= d && d >= 0.0
    requires s == 2.0 * sh * ch && c == ch * ch - sh * sh
    ensures Tiny(s, c, d)
  {
    var h := 2.0 * sh;
    UnitRange(sh, ch);
    ProductBound(h, ch, d, 1.0);
    ProductBound(h, h, d, d);
    assert h * h == 4.0 * (sh * sh);
  }

  lemma SmallAngle(t: Angle, d: real)
    requires t.Normalized() && Subtended(t) && -d <= t.radians <= d
    ensures Tiny(t.Sin(), t.Cos(), d)
  {
    HalfAngleTiny(t.sinHalf, t.cosHalf, t.Sin(), t.Cos(), d);
  }

  lemma NonnegativeProduct(a: real, b: real)
    requires a >= 0.0 && b >= 0.0
    ensures a * b >= 0.0
  {
  }

  lemma ProductNearOne(x: real, y: real, p: real, k: real)
    requires 0.0 <= x <= k && 0.0 <= y <= k && k <= 1.0 && p == (1.0 - x) * (1.0 - y)
    ensures 0.0 <= 1.0 - p <= 2.0 * k
  {
    NonnegativeProduct(x, y);
    NonnegativeProduct(x, 1.0 - y);
    assert x * (1.0 - y) == x - x * y;
    assert 1.0 - p == x + y - x * y;
  }

  lemma CosinesNearOne(a: real, b: real, p: real, d: real)
    requires 0.0 <= 1.0 - a <= d * d && 0.0 <= 1.0 - b <= d * d && 0.0 <= d <= 0.25 && p == a * b
    ensures 0.0 <= 1.0 - p <= d
  {
    QuarterSquare(d);
    ProductNearOne(1.0 - a, 1.0 - b, p, d * d);
  }

  lemma QuarterSquare(d: real)
    requires 0.0 <= d <= 0.25
    ensures 0.0 <= d * d && 4.0 * (d * d) <= d
  {
  }

  lemma SineTimes(s: real, c: real, p: real, d: real)
    requires -d <= s <= d && -1.0 <= c <= 1.0 && d >= 0.0 && p == s * c
    ensures -d <= p <= d
  {
    ProductBound(s, c, d, 1.0);
  }

  lemma CosineRange(s: real, c: real, d: real)
    requires Tiny(s, c, d) && 0.0 <= d <= 0.25
    ensures -1.0 <= c <= 1.0 && -1.0 <= s <= 1.0
  {
    QuarterSquare(d);
  }

  lemma SinesTimes(s: real, t: real, st: real, c: real, p: real, d: real)
    requires -d <= s <= d && -d <= t <= d && -1.0 <= c <= 1.0 && 0.0 <= d <= 0.25 && st == s * t && p == st * c
    ensures -d <= p <= d
  {
    QuarterSquare(d);
    ProductBound(s, t, d, d);
    SineTimes(st, c, p, d * d);
  }

  lemma FirstColumnTiny(sz: real, cz: real, sy: real, cy: real, u: Vec, d: real)
    requires Tiny(sz, cz, d) && Tiny(sy, cy, d) && 0.0 <= d <= 0.25
    requires u == Vec(cz * cy, sz * cy, -sy)
    ensures CloseVec(u, E1, 2.0 * d)
  {
    CosineRange(sy, cy, d);
    CosinesNearOne(cz, cy, u.x, d);
    SineTimes(sz, cy, u.y, d);
  }

  lemma SecondColumnTiny(sz: real, cz: real, sy: real, sx: real, cx: real, sysx: real, a: real, b: real, c: real,
                         e: real, d: real)
    requires Tiny(sz, cz, d) && Tiny(sx, cx, d) && -d <= sy <= d && 0.0 <= d <= 0.25
    requires sysx == sy * sx && a == sysx * cz && b == sz * cx && c == sysx * sz && e == cz * cx
    ensures Close(a - b, 0.0, 2.0 * d) && Close(c + e, 1.0, 2.0 * d)
  {
    CosineRange(sz, cz, d);
    CosineRange(sx, cx, d);
    SinesTimes(sy, sx, sysx, cz, a, d);
    SineTimes(sz, cx, b, d);
    SinesTimes(sy, sx, sysx, sz, c, d);
    CosinesNearOne(cz, cx, e, d);
  }

  lemma ThirdColumnTiny(sz: real, cz: real, sx: real, sycx: real, a: real, b: real, c: real, e: real, d: real)
    requires Tiny(sz, cz, d) && -d <= sx <= d && -d <= sycx <= d && 0.0 <= d <= 0.25
    requires a == sycx * cz && b == sx * sz && c == sycx * sz && e == sx * cz
    ensures Close(a - b, 0.0, 2.0 * d) && Close(c + e, 0.0, 2.0 * d)
  {
    CosineRange(sz, cz, d);
    SineTimes(sycx, cz, a, d);
    SineTimes(sx, sz, b, d);
    SineTimes(sycx, sz, c, d);
    SineTimes(sx, cz, e, d);
  }

  /** The sines and cosines of the fields. */
  ghost predicate SinesOf(e: Euler, sx: real, cx: real, sy: real, cy: real, sz: real, cz: real) {
    && e.x.Sin() == sx && e.x.Cos() == cx && e.y.Sin() == sy && e.y.Cos() == cy
    && e.z.Sin() == sz && e.z.Cos() == cz
  }

  /** A vector off the first axis, turned about X, then Y, then Z. */
  lemma TurnedInRow(e: Euler, a: Vec, u: Vec, v: Vec, w: Vec)
    requires Normalized(e)
    requires Rotate(AboutX(e.x), a) == u && Rotate(AboutY(e.y), u) == v && Rotate(AboutZ(e.z), v) == w
    ensures Rotate(QuaternionFromEuler(e), a) == w
  {
    EulerTurns(e, a);
  }

  lemma AxesAboutX(t: Angle, c: real, s: real)
    requires t.Normalized() && c == t.Cos() && s == t.Sin()
    ensures Rotate(AboutX(t), E2) == Vec(0.0, c, s) && Rotate(AboutX(t), E3) == Vec(0.0, -s, c)
  {
    TurnX(t, c, s, E2);
    TurnX(t, c, s, E3);
  }

  lemma OffFirstAxis(t: Angle, c: real, s: real, y: real, z: real)
    requires t.Normalized() && c == t.Cos() && s == t.Sin()
    ensures Rotate(AboutY(t), Vec(0.0, y, z)) == Vec(s * z, y, c * z)
  {
    TurnY(t, c, s, Vec(0.0, y, z));
  }

  lemma OffFirstAxisTurns(e: Euler, a: Vec, y: real, z: real, sy: real, cy: real, sz: real, cz: real, syz: real,
                          cyz: real)
    requires Normalized(e) && Rotate(AboutX(e.x), a) == Vec(0.0, y, z)
    requires e.y.Sin() == sy && e.y.Cos() == cy && e.z.Sin() == sz && e.z.Cos() == cz
    requires syz == sy * z && cyz == cy * z
    ensures Rotate(QuaternionFromEuler(e), a) == Vec(cz * syz - sz * y, sz * syz + cz * y, cyz)
  {
    OffFirstAxis(e.y, cy, sy, y, z);
    TurnZ(e.z, cz, sz, Vec(syz, y, cyz));
    TurnedInRow(e, a, Vec(0.0, y, z), Vec(syz, y, cyz), Vec(cz * syz - sz * y, sz * syz + cz * y, cyz));
  }

  predicate AllTiny(sx: real, cx: real, sy: real, cy: real, sz: real, cz: real, d: real) {
    Tiny(sx, cx, d) && Tiny(sy, cy, d) && Tiny(sz, cz, d)
  }

  lemma SecondParts(sx: real, cx: real, sy: real, cy: real, sz: real, cz: real, sysx: real, v: Vec, d: real)
    requires AllTiny(sx, cx, sy, cy, sz, cz, d) && 0.0 <= d <= 0.25 && sysx == sy * sx
    requires v == Vec(cz * sysx - sz * cx, sz * sysx + cz * cx, cy * sx)
    ensures CloseVec(v, E2, 2.0 * d)
  {
    CosineRange(sy, cy, d);
    SineTimes(sx, cy, v.z, d);
    SecondColumnTiny(sz, cz, sy, sx, cx, sysx, sysx * cz, sz * cx, sysx * sz, cz * cx, d);
  }

  lemma ThirdParts(minus: real, cx: real, sy: real, cy: real, sz: real, cz: real, sycx: real, v: Vec, d: real)
    requires AllTiny(minus, cx, sy, cy, sz, cz, d) && 0.0 <= d <= 0.25 && sycx == sy * cx
    requires v == Vec(cz * sycx - sz * minus, sz * sycx + cz * minus, cy * cx)
    ensures CloseVec(v, E3, 2.0 * d)
  {
    CosineRange(minus, cx, d);
    SineTimes(sy, cx, sycx, d);
    CosinesNearOne(cy, cx, v.z, d);
    ThirdColumnTiny(sz, cz, minus, sycx, sycx * cz, minus * sz, sycx * sz, minus * cz, d);
  }

  lemma SecondAxisTurns(e: Euler, sx: real, cx: real, sy: real, cy: real, sz: real, cz: real, sysx: real, v: Vec)
    requires Normalized(e) && SinesOf(e, sx, cx, sy, cy, sz, cz) && sysx == sy * sx
    requires v == Vec(cz * sysx - sz * cx, sz * sysx + cz * cx, cy * sx)
    ensures Rotate(QuaternionFromEuler(e), E2) == v
  {
    AxesAboutX(e.x, cx, sx);
    OffFirstAxisTurns(e, E2, cx, sx, sy, cy, sz, cz, sysx, cy * sx);
  }

  lemma ThirdAxisTurns(e: Euler, minus: real, cx: real, sy: real, cy: real, sz: real, cz: real, sycx: real, v: Vec)
    requires Normalized(e) && SinesOf(e, -minus, cx, sy, cy, sz, cz) && sycx == sy * cx
    requires v == Vec(cz * sycx - sz * minus, sz * sycx + cz * minus, cy * cx)
    ensures Rotate(QuaternionFromEuler(e), E3) == v
  {
    AxesAboutX(e.x, cx, -minus);
    OffFirstAxisTurns(e, E3, minus, cx, sy, cy, sz, cz, sycx, cy * cx);
  }

  lemma SecondAxisTiny(e: Euler, sx: real, cx: real, sy: real, cy: real, sz: real, cz: real, sysx: real, v: Vec,
                       d: real)
    requires Normalized(e) && SinesOf(e, sx, cx, sy, cy, sz, cz) && sysx == sy * sx
    requires AllTiny(sx, cx, sy, cy, sz, cz, d) && 0.0 <= d <= 0.25
    requires v == Vec(cz * sysx - sz * cx, sz * sysx + cz * cx, cy * sx)
    ensures Rotate(QuaternionFromEuler(e), E2) == v && CloseVec(v, E2, 2.0 * d)
  {
    SecondAxisTurns(e, sx, cx, sy, cy, sz, cz, sysx, v);
    SecondParts(sx, cx, sy, cy, sz, cz, sysx, v, d);
  }

  lemma ThirdAxisTiny(e: Euler, minus: real, cx: real, sy: real, cy: real, sz: real, cz: real, sycx: real, v: Vec,
                      d: real)
    requires Normalized(e) && SinesOf(e, -minus, cx, sy, cy, sz, cz) && sycx == sy * cx
    requires AllTiny(minus, cx, sy, cy, sz, cz, d) && 0.0 <= d <= 0.25
    requires v == Vec(cz * sycx - sz * minus, sz * sycx + cz * minus, cy * cx)
    ensures Rotate(QuaternionFromEuler(e), E3) == v && CloseVec(v, E3, 2.0 * d)
  {
    ThirdAxisTurns(e, minus, cx, sy, cy, sz, cz, sycx, v);
    ThirdParts(minus, cx, sy, cy, sz, cz, sycx, v, d);
  }

  lemma FirstAxisTiny(e: Euler, sy: real, cy: real, sz: real, cz: real, v: Vec, d: real)
    requires Normalized(e) && sy == e.y.Sin() && cy == e.y.Cos() && sz == e.z.Sin() && cz == e.z.Cos()
    requires Tiny(sy, cy, d) && Tiny(sz, cz, d) && 0.0 <= d <= 0.25
    requires v == Vec(cz * cy, sz * cy, -sy)
    ensures Rotate(QuaternionFromEuler(e), E1) == v && CloseVec(v, E1, 2.0 * d)
  {
    FirstColumnIs(e, sy, cy, sz, cz);
    FirstColumnTiny(sz, cz, sy, cy, v, d);
  }

  lemma OppositeTiny(s: real, c: real, minus: real, d: real)
    requires Tiny(s, c, d) && minus == -s
    ensures Tiny(minus, c, d)
  {
  }

  /** Fields this small turn nothing by more than twice their size. */
  lemma TinyTurn(e: Euler, sx: real, cx: real, sy: real, cy: real, sz: real, cz: real, u: Vec, v: Vec, w: Vec, d: real)
    requires Normalized(e) && SinesOf(e, sx, cx, sy, cy, sz, cz)
    requires AllTiny(sx, cx, sy, cy, sz, cz, d) && 0.0 <= d <= 0.25
    requires var p := QuaternionFromEuler(e); u == Rotate(p, E1) && v == Rotate(p, E2) && w == Rotate(p, E3)
    ensures CloseVec(u, E1, 2.0 * d) && CloseVec(v, E2, 2.0 * d) && CloseVec(w, E3, 2.0 * d)
  {
    FirstAxisTiny(e, sy, cy, sz, cz, Vec(cz * cy, sz * cy, -sy), d);
    var sysx, sycx, minus := sy * sx, sy * cx, -sx;
    SecondAxisTiny(e, sx, cx, sy, cy, sz, cz, sysx, Vec(cz * sysx - sz * cx, sz * sysx + cz * cx, cy * sx), d);
    OppositeTiny(sx, cx, minus, d);
    ThirdAxisTiny(e, minus, cx, sy, cy, sz, cz, sycx,
                  Vec(cz * sycx - sz * minus, sz * sycx + cz * minus, cy * cx), d);
  }

  ghost predicate TinyFields(e: Euler) {
    && Normalized(e) && AllSubtended(e)
    && Within(Vec(e.x.radians, e.y.radians, e.z.radians), POSE_EPSILON)
  }

  lemma FieldsAreTiny(e: Euler)
    requires TinyFields(e)
    ensures AllTiny(e.x.Sin(), e.x.Cos(), e.y.Sin(), e.y.Cos(), e.z.Sin(), e.z.Cos(), POSE_EPSILON)
  {
    SmallAngle(e.x, POSE_EPSILON);
    SmallAngle(e.y, POSE_EPSILON);
    SmallAngle(e.z, POSE_EPSILON);
  }

  lemma TinyIsFree(e: Euler, s: real, c: real)
    requires c == e.y.Cos() && Tiny(s, c, POSE_EPSILON)
    ensures !Locked(e)
  {
    QuarterSquare(POSE_EPSILON);
  }

  lemma TinyFieldsTurn(e: Euler, p: Quat)
    requires TinyFields(e) && p == QuaternionFromEuler(e)
    ensures !Locked(e) && NearTurn(p, IDENTITY, TOLERANCE)
  {
    FieldsAreTiny(e);
    TinyIsFree(e, e.y.Sin(), e.y.Cos());
    TinyTurn(e, e.x.Sin(), e.x.Cos(), e.y.Sin(), e.y.Cos(), e.z.Sin(), e.z.Cos(),
             Rotate(p, E1), Rotate(p, E2), Rotate(p, E3), POSE_EPSILON);
    RotateIdentity(E1);
    RotateIdentity(E2);
    RotateIdentity(E3);
  }

  lemma SameTurn(p: Quat, q: Quat, i: Quat, d: real)
    requires NearTurn(p, i, d) && Unit(q) && (p == q || p == Neg(q))
    ensures NearTurn(q, i, d)
  {
    RotateIgnoresSign(q, E1);
    RotateIgnoresSign(q, E2);
    RotateIgnoresSign(q, E3);
  }

  /** A turn whose fields are below the tolerance is near no turn. */
  lemma TinyTurnIsNearNone(q: Quat, e: Euler)
    requires Unit(q) && IsEulerFromQuaternion(q, e) && TinyFields(e)
    ensures NearTurn(q, IDENTITY, TOLERANCE)
  {
    FieldsReadTheMatrix(q, e);
    TinyFieldsTurn(e, QuaternionFromEuler(e));
    FreeFieldsSuffice(q, e);
    SameTurn(QuaternionFromEuler(e), q, IDENTITY, TOLERANCE);
  }

  lemma UnturnedClose(q: Quat, v: Vec, d: real)
    requires NearTurn(q, IDENTITY, d)
    ensures CloseVec(Rotate(q, v), v, d * Reach(v))
  {
    NearByColumns(q, IDENTITY, d);
    TurnClose(q, IDENTITY, v, d);
    RotateIdentity(v);
  }

  lemma UnmovedClose(placed: Vec, turned: Vec, pivot: Vec, delta: Vec, d: real, epsilon: real)
    requires CloseVec(turned, Sub(placed, pivot), d) && Within(delta, epsilon)
    ensures CloseVec(placed, Add(Add(pivot, turned), delta), d + epsilon)
  {
  }

  lemma PreviewTurns(current: Pose, target: Pose, pivot: Vec, preview: MoveRotatePreview, turn: Quat)
    requires ValidPose(current) && ValidPose(target) && IsPreviewBetween(current, target, pivot, preview)
    requires turn == TurnBetween(current, target)
    ensures Unit(turn) && IsEulerFromQuaternion(turn, preview.rotation)
  {
    TurnIsUnit(current, target);
  }

  lemma TurnedLittle(turn: Quat, fields: Euler, off: Vec)
    requires Unit(turn) && IsEulerFromQuaternion(turn, fields) && TinyFields(fields)
    ensures CloseVec(Rotate(turn, off), off, TOLERANCE * Reach(off))
  {
    TinyTurnIsNearNone(turn, fields);
    UnturnedClose(turn, off, TOLERANCE);
  }

  /** A preview too small to be applied leaves every point near where the
      target would have it. */
  lemma IdentityWithinTolerance(current: Pose, target: Pose, pivot: Vec, preview: MoveRotatePreview, v: Vec)
    requires ValidPose(current) && ValidPose(target) && IsPreviewBetween(current, target, pivot, preview)
    requires Within(preview.translation, POSE_EPSILON) && TinyFields(preview.rotation)
    ensures CloseVec(Place(current, v), Place(target, v),
                     TOLERANCE * Reach(Sub(Place(current, v), pivot)) + POSE_EPSILON)
  {
    var turn, off := TurnBetween(current, target), Sub(Place(current, v), pivot);
    TargetMovesPoints(current, target, pivot, preview, turn, v);
    PreviewTurns(current, target, pivot, preview, turn);
    TurnedLittle(turn, preview.rotation, off);
    UnmovedClose(Place(current, v), Rotate(turn, off), pivot, preview.translation, TOLERANCE * Reach(off),
                 POSE_EPSILON);
  }

  lemma AppliedWithinTolerance(current: Pose, target: Pose, pivot: Vec, preview: MoveRotatePreview, next: Pose, v: Vec)
    requires ValidPose(current) && ValidPose(target)
    requires IsPreviewBetween(current, target, pivot, preview) && !preview.IsIdentity()
    requires Normalized(preview.rotation)
    requires ComposeMoveRotatePreview(current, preview, pivot, false) == Success(next)
    ensures CloseVec(Place(next, v), Place(target, v), TOLERANCE * Reach(Sub(Place(current, v), pivot)))
  {
    var p, turn := QuaternionFromEuler(preview.rotation), TurnBetween(current, target);
    var off := Sub(Place(current, v), pivot);
    TurnIsUnit(current, target);
    FieldsWithinTolerance(turn, preview.rotation);
    TurnClose(p, turn, off, TOLERANCE);
    PreviewMovesPoints(current, preview, pivot, p, next, v);
    TargetMovesPoints(current, target, pivot, preview, turn, v);
    MovedClose(Rotate(p, off), Rotate(turn, off), pivot, preview.translation, TOLERANCE * Reach(off));
  }

  /** Composing the preview between two poses, when it is not refused, takes
      every point to within twice the pose tolerance of its target for each
      unit it reaches from the pivot, and the pose tolerance besides when the
      preview is too small to be applied. */
  lemma PreviewWithinTolerance(current: Pose, target: Pose, pivot: Vec, preview: MoveRotatePreview, next: Pose, v: Vec)
    requires ValidPose(current) && ValidPose(target)
    requires IsPreviewBetween(current, target, pivot, preview)
    requires Normalized(preview.rotation) && AllSubtended(preview.rotation)
    requires ComposeMoveRotatePreview(current, preview, pivot, false) == Success(next)
    ensures CloseVec(Place(next, v), Place(target, v),
                     TOLERANCE * Reach(Sub(Place(current, v), pivot)) +
                     if preview.IsIdentity() then POSE_EPSILON else 0.0)
  {
    if preview.IsIdentity() {
      IdentityWithinTolerance(current, target, pivot, preview, v);
    } else {
      AppliedWithinTolerance(current, target, pivot, preview, next, v);
    }
  }

  lemma PlacedClose(p: Pose, q: Pose, v: Vec, d: real)
    requires p.translation == q.translation && CloseVec(Rotate(p.rotation, v), Rotate(q.rotation, v), d)
    ensures CloseVec(Place(p, v), Place(q, v), d)
  {
  }

  /** Committing the panel's fields as they were read is never refused and
      leaves every point of the component within twice the pose tolerance for
      each unit it reaches from the component's origin. */
  lemma PanelWithinTolerance(pose: Pose, fields: Euler, v: Vec)
    requires ValidPose(pose) && IsEulerFromQuaternion(pose.rotation, fields)
    ensures Normalized(fields) && ToPose(pose.translation, fields).Success?
    ensures CloseVec(Place(ToPose(pose.translation, fields).value, v), Place(pose, v), TOLERANCE * Reach(v))
  {
    PanelIsNotRefused(pose, fields);
    PanelPlaces(pose, fields, ToPose(pose.translation, fields).value, v);
  }

  lemma PanelIsNotRefused(pose: Pose, fields: Euler)
    requires ValidPose(pose) && IsEulerFromQuaternion(pose.rotation, fields)
    ensures Normalized(fields) && ToPose(pose.translation, fields).Success?
  {
    EulerIsUnit(fields);
  }

  lemma PanelPlaces(pose: Pose, fields: Euler, next: Pose, v: Vec)
    requires ValidPose(pose) && IsEulerFromQuaternion(pose.rotation, fields) && Normalized(fields)
    requires ToPose(pose.translation, fields) == Success(next)
    ensures CloseVec(Place(next, v), Place(pose, v), TOLERANCE * Reach(v))
  {
    var p := QuaternionFromEuler(fields);
    EulerIsUnit(fields);
    FieldsWithinTolerance(pose.rotation, fields);
    TurnClose(p, pose.rotation, v, TOLERANCE);
    CanonicalTurns(p, v);
    PlacedClose(next, pose, v, TOLERANCE * Reach(v));
  }
}
