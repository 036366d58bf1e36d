/**
  Confirming the fields of the component panel: a grounded component never
  moves, and its own fields are never taken for a move.
*/
module PanelCommit {
  import opened Results
  import opened Quaternions
  import opened EulerFields
  import opened Assembly
  import opened PoseTolerance

  // -- rotations that turn the axes alike ------------------------------------

  function DotVec(u: Vec, v: Vec): real {
    u.x * v.x + u.y * v.y + u.z * v.z
  }

  lemma TurnedBackAlong(p: Quat, u: Vec)
    ensures var v := Rotate(Conjugate(p), u);
            v == Vec(DotVec(Rotate(p, E1), u), DotVec(Rotate(p, E2), u), DotVec(Rotate(p, E3), u))
  {
    RotateIsMatrix(Conjugate(p), u);
    ConjugateTransposes(p);
    ColumnsOf(p);
    ThirdColumnOf(p);
    AppliesTranspose(MatrixOf(p), MatrixOf(Conjugate(p)), u);
  }

  lemma AppliesTranspose(m: Matrix, t: Matrix, u: Vec)
    requires t == Matrix(m.m00, m.m10, m.m20, m.m01, m.m11, m.m21, m.m02, m.m12, m.m22)
    ensures Apply(t, u) ==
            Vec(DotVec(Vec(m.m00, m.m10, m.m20), u), DotVec(Vec(m.m01, m.m11, m.m21), u),
                DotVec(Vec(m.m02, m.m12, m.m22), u))
  {
  }

  lemma BetweenDots(p: Quat, q: Quat, r: Quat)
    requires Unit(p) && Unit(q) && r == Multiply(Conjugate(p), q)
    ensures DotVec(Rotate(p, E1), Rotate(q, E1)) == MatrixOf(r).m00
    ensures DotVec(Rotate(p, E2), Rotate(q, E2)) == MatrixOf(r).m11
    ensures DotVec(Rotate(p, E3), Rotate(q, E3)) == MatrixOf(r).m22
  {
    ConjugateInverts(p);
    RotateComposes(Conjugate(p), q, E1);
    RotateComposes(Conjugate(p), q, E2);
    RotateComposes(Conjugate(p), q, E3);
    TurnedBackAlong(p, Rotate(q, E1));
    TurnedBackAlong(p, Rotate(q, E2));
    TurnedBackAlong(p, Rotate(q, E3));
    ColumnsOf(r);
    ThirdColumnOf(r);
  }

  lemma BetweenIs(p: Quat, q: Quat)
    ensures Multiply(Conjugate(p), q).w == Dot(p, q)
  {
  }

  lemma DiagonalSum(r: Quat, w: real)
    requires Unit(r) && w == r.w
    ensures MatrixOf(r).m00 + MatrixOf(r).m11 + MatrixOf(r).m22 == 4.0 * (w * w) - 1.0
  {
  }

  /** The three turned axes are as close as the quaternions are. */
  lemma AxesAndQuaternions(p: Quat, q: Quat, dot: real)
    requires Unit(p) && Unit(q) && dot == Dot(p, q)
    ensures DotVec(Rotate(p, E1), Rotate(q, E1)) + DotVec(Rotate(p, E2), Rotate(q, E2)) +
            DotVec(Rotate(p, E3), Rotate(q, E3)) == 4.0 * (dot * dot) - 1.0
  {
    var r := Multiply(Conjugate(p), q);
    ConjugateInverts(p);
    UnitProduct(Conjugate(p), q);
    BetweenIs(p, q);
    BetweenDots(p, q, r);
    DiagonalSum(r, dot);
  }

  lemma SmallSquare(a: real, d: real)
    requires -d <= a <= d
    ensures a * a <= d * d
  {
    ProductBound(a, a, d, d);
  }

  lemma SquareApart(a: real, b: real, aa: real, ab: real, bb: real, d: real)
    requires -d <= a - b <= d && aa == a * a && ab == a * b && bb == b * b
    ensures aa - 2.0 * ab + bb <= d * d
  {
    SmallSquare(a - b, d);
    assert (a - b) * (a - b) == aa - 2.0 * ab + bb;
  }

  lemma UnitsClose(u: Vec, v: Vec, d: real, dot: real)
    requires UnitVec(u) && UnitVec(v) && CloseVec(u, v, d) && dot == DotVec(u, v)
    ensures 2.0 - 2.0 * dot <= 3.0 * (d * d)
  {
    ProductsClose(u, v, Products(u, u), Products(u, v), Products(v, v), d, d * d);
    SumApart(Products(u, u), Products(u, v), Products(v, v), d * d);
  }

  function Products(u: Vec, v: Vec): Vec {
    Vec(u.x * v.x, u.y * v.y, u.z * v.z)
  }

  lemma ProductsClose(u: Vec, v: Vec, uu: Vec, uv: Vec, vv: Vec, d: real, dd: real)
    requires CloseVec(u, v, d) && dd == d * d
    requires uu == Products(u, u) && uv == Products(u, v) && vv == Products(v, v)
    ensures uu.x - 2.0 * uv.x + vv.x <= dd
    ensures uu.y - 2.0 * uv.y + vv.y <= dd
    ensures uu.z - 2.0 * uv.z + vv.z <= dd
  {
    SquareApart(u.x, v.x, uu.x, uv.x, vv.x, d);
    SquareApart(u.y, v.y, uu.y, uv.y, vv.y, d);
    SquareApart(u.z, v.z, uu.z, uv.z, vv.z, d);
  }

  lemma SumApart(a: Vec, m: Vec, b: Vec, d: real)
    requires a.x - 2.0 * m.x + b.x <= d && a.y - 2.0 * m.y + b.y <= d && a.z - 2.0 * m.z + b.z <= d
    requires a.x + a.y + a.z == 1.0 && b.x + b.y + b.z == 1.0
    ensures 2.0 - 2.0 * (m.x + m.y + m.z) <= 3.0 * d
  {
  }

  lemma UnitAxes(q: Quat)
    requires Unit(q)
    ensures UnitVec(Rotate(q, E1)) && UnitVec(Rotate(q, E2)) && UnitVec(Rotate(q, E3))
  {
    RotateKeepsUnit(q, E1);
    RotateKeepsUnit(q, E2);
    RotateKeepsUnit(q, E3);
  }

  /** Rotations that turn the axes to within a distance are as close in the
      square. */
  lemma NearTurnsDot(p: Quat, q: Quat, d: real, dot: real)
    requires Unit(p) && Unit(q) && NearTurn(p, q, d) && dot == Dot(p, q)
    ensures dot * dot >= 1.0 - 9.0 / 8.0 * (d * d)
  {
    UnitAxes(p);
    UnitAxes(q);
    UnitsClose(Rotate(p, E1), Rotate(q, E1), d, DotVec(Rotate(p, E1), Rotate(q, E1)));
    UnitsClose(Rotate(p, E2), Rotate(q, E2), d, DotVec(Rotate(p, E2), Rotate(q, E2)));
    UnitsClose(Rotate(p, E3), Rotate(q, E3), d, DotVec(Rotate(p, E3), Rotate(q, E3)));
    AxesAndQuaternions(p, q, dot);
  }

  lemma UnitLead(r: Quat, w: real)
    requires Unit(r) && w == r.w
    ensures -1.0 <= w <= 1.0
  {
    AbsBound(w, 1.0);
  }

  lemma BetweenIsUnit(p: Quat, q: Quat, r: Quat)
    requires Unit(p) && Unit(q) && r == Multiply(Conjugate(p), q)
    ensures Unit(r) && r.w == Dot(p, q)
  {
    ConjugateInverts(p);
    UnitProduct(Conjugate(p), q);
    BetweenIs(p, q);
  }

  lemma UnitDotRange(p: Quat, q: Quat, r: Quat, dot: real)
    requires Unit(p) && Unit(q) && dot == Dot(p, q) && r == Multiply(Conjugate(p), q)
    ensures -1.0 <= dot <= 1.0
  {
    BetweenIsUnit(p, q, r);
    UnitLead(r, dot);
  }

  lemma SizeAboveSquare(size: real, square: real, d: real, dd: real)
    requires 0.0 <= size <= 1.0 && square == size * size && square >= 1.0 - 9.0 / 8.0 * dd
    requires dd == d * d && 0.0 <= d <= TOLERANCE
    ensures !Apart(1.0, size)
  {
    SmallTimesSmall(size);
    SmallTolerance(d, dd);
    assert square <= size;
    assert 1.0 - size <= 9.0 / 8.0 * dd;
  }

  lemma SmallTolerance(d: real, dd: real)
    requires dd == d * d && 0.0 <= d <= TOLERANCE
    ensures 9.0 / 8.0 * dd <= POSE_EPSILON
  {
    QuarterSquare(d);
    assert 4.0 * dd <= d;
    assert 2.0 * dd <= POSE_EPSILON;
  }

  lemma NearOne(dot: real, size: real, d: real)
    requires -1.0 <= dot <= 1.0 && size == (if dot < 0.0 then -dot else dot) && 0.0 <= d <= TOLERANCE
    requires dot * dot >= 1.0 - 9.0 / 8.0 * (d * d)
    ensures !Apart(1.0, size)
  {
    SizeSquare(dot, size, size * size, dot * dot);
    SizeAboveSquare(size, size * size, d, d * d);
  }

  lemma SizeSquare(dot: real, size: real, square: real, other: real)
    requires size == (if dot < 0.0 then -dot else dot) && square == size * size && other == dot * dot
    ensures square == other
  {
    if dot < 0.0 {
      assert (-dot) * (-dot) == dot * dot;
    }
  }

  lemma NegDots(p: Quat, q: Quat)
    ensures Dot(q, Neg(p)) == -Dot(p, q) && Dot(q, p) == Dot(p, q)
  {
  }

  // -- the panel -------------------------------------------------------------

  /** Moved past the tolerance on an axis, or turned by an angle whose half
      has a cosine that far from one. */
  predicate Moved(current: Pose, next: Pose) {
    var half := TurnBetween(current, next).w;
    || next.translation.x - current.translation.x > 0.0000000001
    || next.translation.y - current.translation.y > 0.0000000001
    || next.translation.z - current.translation.z > 0.0000000001
    || current.translation.x - next.translation.x > 0.0000000001
    || current.translation.y - next.translation.y > 0.0000000001
    || current.translation.z - next.translation.z > 0.0000000001
    || -0.9999999999 < half < 0.9999999999
  }

  lemma HalfIsDot(current: Pose, next: Pose)
    ensures TurnBetween(current, next).w == Dot(current.rotation, next.rotation)
  {
  }

  lemma SizesApart(dot: real)
    requires -1.0 <= dot <= 1.0
    ensures Apart(1.0, if dot < 0.0 then -dot else dot) <==> -0.9999999999 < dot < 0.9999999999
  {
  }

  lemma EquivalentUnlessMoved(current: Pose, next: Pose)
    requires Unit(current.rotation) && Unit(next.rotation)
    ensures PosesEquivalent(current, next) <==> !Moved(current, next)
  {
    var p, q := current.rotation, next.rotation;
    HalfIsDot(current, next);
    UnitDotRange(p, q, Multiply(Conjugate(p), q), Dot(p, q));
    SizesApart(Dot(p, q));
  }

  /** What confirming the panel's fields comes to. A grounded component stays
      exactly as it is, or is refused; it is refused exactly if the fields
      stand for a pose in range that is moved. Any other takes the fields'
      pose. */
  lemma CommitOutcome(translation: Vec, fields: Euler, current: Pose, grounded: bool, rotation: Quat)
    requires ValidPose(current) && Normalized(fields) && rotation == Canonical(QuaternionFromEuler(fields))
    ensures var r, next := CommitFields(translation, fields, current, grounded), Pose(translation, rotation);
            && (r == Failure(InvalidTranslation) <==> FarOut(translation))
            && (r == Failure(GroundedComponent) <==> grounded && !FarOut(translation) && Moved(current, next))
            && (r.Success? ==> r.value == if grounded then current else next)
            && (r.Failure? ==> r.error == GroundedComponent || r.error == InvalidTranslation)
  {
    EulerIsUnit(fields);
    ConjugateInverts(QuaternionFromEuler(fields));
    EquivalentUnlessMoved(current, Pose(translation, rotation));
  }

  lemma ReadFieldsNear(pose: Pose, fields: Euler, p: Quat)
    requires ValidPose(pose) && IsEulerFromQuaternion(pose.rotation, fields) && p == QuaternionFromEuler(fields)
    ensures Normalized(fields) && Unit(p) && NearTurn(p, pose.rotation, TOLERANCE)
  {
    FieldsReadTheMatrix(pose.rotation, fields);
    EulerIsUnit(fields);
    ReadNear(pose.rotation, fields, p);
  }

  lemma ReadFieldsEquivalent(pose: Pose, fields: Euler, p: Quat, candidate: Pose)
    requires ValidPose(pose) && IsEulerFromQuaternion(pose.rotation, fields) && p == QuaternionFromEuler(fields)
    requires candidate == Pose(pose.translation, Canonical(p))
    ensures PosesEquivalent(pose, candidate)
  {
    var dot := Dot(p, pose.rotation);
    ReadFieldsNear(pose, fields, p);
    NearTurnsDot(p, pose.rotation, TOLERANCE, dot);
    UnitDotRange(p, pose.rotation, Multiply(Conjugate(p), pose.rotation), dot);
    NearOne(dot, if dot < 0.0 then -dot else dot, TOLERANCE);
    NegDots(p, pose.rotation);
  }

  /** The fields of a grounded component, confirmed as they were read, are
      never taken for a move, at the lock or anywhere: the component stays. */
  lemma GroundedFieldsStay(pose: Pose, fields: Euler)
    requires ValidPose(pose) && IsEulerFromQuaternion(pose.rotation, fields)
    ensures Normalized(fields) && CommitFields(pose.translation, fields, pose, true) == Success(pose)
  {
    var p := QuaternionFromEuler(fields);
    ReadFieldsNear(pose, fields, p);
    ReadFieldsEquivalent(pose, fields, p, Pose(pose.translation, Canonical(p)));
  }
}
