/**
  The three angles in which the component panel shows a rotation, and when
  they say which rotation they came from.

  An angle is kept with the sine and cosine of its half; the inverse
  trigonometric functions are known by what they return.
*/
module EulerFields {
  import opened Quaternions

  const POSE_EPSILON: real := 0.0000000001

  datatype Angle = Angle(radians: real, sinHalf: real, cosHalf: real) {
    function Sin(): real {
      2.0 * sinHalf * cosHalf
    }

    function Cos(): real {
      cosHalf * cosHalf - sinHalf * sinHalf
    }

    /** An angle between minus pi and pi. */
    ghost predicate Normalized() {
      sinHalf * sinHalf + cosHalf * cosHalf == 1.0 && cosHalf >= 0.0
    }
  }

  const NO_TURN := Angle(0.0, 0.0, 1.0)

  datatype Euler = Euler(x: Angle, y: Angle, z: Angle)

  ghost predicate Normalized(e: Euler) {
    e.x.Normalized() && e.y.Normalized() && e.z.Normalized()
  }

  function QuaternionFromEuler(e: Euler): Quat {
    Quat(
      e.z.cosHalf * e.y.cosHalf * e.x.cosHalf + e.z.sinHalf * e.y.sinHalf * e.x.sinHalf,
      e.z.cosHalf * e.y.cosHalf * e.x.sinHalf - e.z.sinHalf * e.y.sinHalf * e.x.cosHalf,
      e.z.cosHalf * e.y.sinHalf * e.x.cosHalf + e.z.sinHalf * e.y.cosHalf * e.x.sinHalf,
      e.z.sinHalf * e.y.cosHalf * e.x.cosHalf - e.z.cosHalf * e.y.sinHalf * e.x.sinHalf)
  }

  // -- the inverse functions -------------------------------------------------

  function Clamp(a: real): real {
    if a < -1.0 then -1.0 else if a > 1.0 then 1.0 else a
  }

  ghost predicate IsAsin(t: Angle, a: real) {
    t.Normalized() && t.Sin() == a && t.Cos() >= 0.0
  }

  ghost predicate HasRadius(t: Angle, a: real, b: real, r: real) {
    r >= 0.0 && a == r * t.Sin() && b == r * t.Cos()
  }

  ghost predicate IsAtan2(t: Angle, a: real, b: real) {
    && t.Normalized()
    && (exists r: real :: HasRadius(t, a, b, r))
    && (a == 0.0 && b == 0.0 ==> t == NO_TURN)
  }

  /** Whether the pitch is too near a right angle for roll and yaw to be told
      apart. */
  predicate Locked(e: Euler) {
    (if e.y.Cos() < 0.0 then -e.y.Cos() else e.y.Cos()) <= POSE_EPSILON
  }

  /** These are the fields read off a unit quaternion. */
  ghost predicate IsEulerFromQuaternion(q: Quat, e: Euler) {
    && IsAsin(e.y, Clamp(2.0 * (q.w * q.y - q.z * q.x)))
    && if Locked(e) then
         && e.x == NO_TURN
         && IsAtan2(e.z, -2.0 * (q.x * q.y - q.w * q.z), 1.0 - 2.0 * (q.x * q.x + q.z * q.z))
       else
         && IsAtan2(e.x, 2.0 * (q.w * q.x + q.y * q.z), 1.0 - 2.0 * (q.x * q.x + q.y * q.y))
         && IsAtan2(e.z, 2.0 * (q.w * q.z + q.x * q.y), 1.0 - 2.0 * (q.y * q.y + q.z * q.z))
  }

  /** Away from the lock, or locked with no roll to lose. */
  predicate FieldsSuffice(q: Quat, e: Euler) {
    !Locked(e) || (2.0 * (q.w * q.x + q.y * q.z) == 0.0 && 1.0 - 2.0 * (q.x * q.x + q.y * q.y) >= 0.0)
  }

  // -- axes ------------------------------------------------------------------

  const E1 := Vec(1.0, 0.0, 0.0)
  const E2 := Vec(0.0, 1.0, 0.0)
  const E3 := Vec(0.0, 0.0, 1.0)

  lemma ApplyToAxes(m: Matrix)
    ensures Apply(m, E1) == Vec(m.m00, m.m10, m.m20)
    ensures Apply(m, E2) == Vec(m.m01, m.m11, m.m21)
    ensures Apply(m, E3) == Vec(m.m02, m.m12, m.m22)
  {
  }

  lemma ColumnsOf(q: Quat)
    ensures var m := MatrixOf(q);
            && Rotate(q, E1) == Vec(m.m00, m.m10, m.m20)
            && Rotate(q, E2) == Vec(m.m01, m.m11, m.m21)
            && Rotate(Conjugate(q), E3) == Vec(m.m20, m.m21, m.m22)
  {
    RotateIsMatrix(q, E1);
    RotateIsMatrix(q, E2);
    RotateIsMatrix(Conjugate(q), E3);
    ApplyToAxes(MatrixOf(q));
    ApplyToAxes(MatrixOf(Conjugate(q)));
    ConjugateTransposes(q);
  }

  predicate UnitVec(v: Vec) {
    v.x * v.x + v.y * v.y + v.z * v.z == 1.0
  }

  lemma RotateKeepsUnit(q: Quat, v: Vec)
    requires Unit(q) && UnitVec(v)
    ensures UnitVec(Rotate(q, v))
  {
    ConjugateInverts(q);
    RotateIsSandwich(q, v);
    UnitProduct(Pure(v), Conjugate(q));
    UnitProduct(q, Multiply(Pure(v), Conjugate(q)));
    assert Unit(Pure(Rotate(q, v)));
  }

  function AboutX(t: Angle): Quat {
    Quat(t.cosHalf, t.sinHalf, 0.0, 0.0)
  }

  function AboutY(t: Angle): Quat {
    Quat(t.cosHalf, 0.0, t.sinHalf, 0.0)
  }

  function AboutZ(t: Angle): Quat {
    Quat(t.cosHalf, 0.0, 0.0, t.sinHalf)
  }

  lemma PitchThenRoll(x: Angle, y: Angle)
    ensures Multiply(AboutY(y), AboutX(x)) ==
            Quat(y.cosHalf * x.cosHalf, y.cosHalf * x.sinHalf, y.sinHalf * x.cosHalf, -(y.sinHalf * x.sinHalf))
  {
  }

  lemma ThenYaw(z: Angle, q: Quat)
    ensures Multiply(AboutZ(z), q) ==
            Quat(z.cosHalf * q.w - z.sinHalf * q.z, z.cosHalf * q.x - z.sinHalf * q.y,
                 z.cosHalf * q.y + z.sinHalf * q.x, z.cosHalf * q.z + z.sinHalf * q.w)
  {
  }

  lemma EulerFactors(e: Euler, yx: Quat)
    requires yx == Quat(e.y.cosHalf * e.x.cosHalf, e.y.cosHalf * e.x.sinHalf, e.y.sinHalf * e.x.cosHalf,
                        -(e.y.sinHalf * e.x.sinHalf))
    ensures QuaternionFromEuler(e) ==
            Quat(e.z.cosHalf * yx.w - e.z.sinHalf * yx.z, e.z.cosHalf * yx.x - e.z.sinHalf * yx.y,
                 e.z.cosHalf * yx.y + e.z.sinHalf * yx.x, e.z.cosHalf * yx.z + e.z.sinHalf * yx.w)
  {
    Nested(e.z.cosHalf, e.z.sinHalf, e.y.cosHalf, e.y.sinHalf, e.x.cosHalf, e.x.sinHalf, yx.w, yx.x, yx.y, yx.z);
  }

  lemma Nested(cz: real, sz: real, cy: real, sy: real, cx: real, sx: real, w: real, x: real, y: real, z: real)
    requires w == cy * cx && x == cy * sx && y == sy * cx && z == -(sy * sx)
    ensures cz * w - sz * z == cz * cy * cx + sz * sy * sx
    ensures cz * x - sz * y == cz * cy * sx - sz * sy * cx
    ensures cz * y + sz * x == cz * sy * cx + sz * cy * sx
    ensures cz * z + sz * w == sz * cy * cx - cz * sy * sx
  {
  }

  lemma EulerIsProduct(e: Euler)
    ensures QuaternionFromEuler(e) == Multiply(AboutZ(e.z), Multiply(AboutY(e.y), AboutX(e.x)))
  {
    PitchThenRoll(e.x, e.y);
    var yx := Multiply(AboutY(e.y), AboutX(e.x));
    EulerFactors(e, yx);
    ThenYaw(e.z, yx);
  }

  lemma EulerIsUnit(e: Euler)
    requires Normalized(e)
    ensures Unit(AboutX(e.x)) && Unit(AboutY(e.y)) && Unit(AboutZ(e.z))
    ensures Unit(Multiply(AboutY(e.y), AboutX(e.x)))
    ensures Unit(QuaternionFromEuler(e))
  {
    EulerIsProduct(e);
    UnitProduct(AboutY(e.y), AboutX(e.x));
    UnitProduct(AboutZ(e.z), Multiply(AboutY(e.y), AboutX(e.x)));
  }

  // -- turning about one axis ------------------------------------------------

  lemma MatrixAboutX(t: Angle)
    requires t.Normalized()
    ensures MatrixOf(AboutX(t)) == Matrix(1.0, 0.0, 0.0, 0.0, t.Cos(), -t.Sin(), 0.0, t.Sin(), t.Cos())
  {
  }

  lemma MatrixAboutY(t: Angle)
    requires t.Normalized()
    ensures MatrixOf(AboutY(t)) == Matrix(t.Cos(), 0.0, t.Sin(), 0.0, 1.0, 0.0, -t.Sin(), 0.0, t.Cos())
  {
  }

  lemma MatrixAboutZ(t: Angle)
    requires t.Normalized()
    ensures MatrixOf(AboutZ(t)) == Matrix(t.Cos(), -t.Sin(), 0.0, t.Sin(), t.Cos(), 0.0, 0.0, 0.0, 1.0)
  {
  }

  lemma ConjugateTurnsBack(t: Angle)
    requires t.Normalized()
    ensures var b := Angle(-t.radians, -t.sinHalf, t.cosHalf);
            && b.Normalized() && b.Sin() == -t.Sin() && b.Cos() == t.Cos()
            && Conjugate(AboutX(t)) == AboutX(b)
            && Conjugate(AboutY(t)) == AboutY(b)
            && Conjugate(AboutZ(t)) == AboutZ(b)
  {
  }

  lemma AppliesAboutX(m: Matrix, c: real, s: real, v: Vec)
    requires m == Matrix(1.0, 0.0, 0.0, 0.0, c, -s, 0.0, s, c)
    ensures Apply(m, v) == Vec(v.x, c * v.y - s * v.z, s * v.y + c * v.z)
  {
  }

  lemma AppliesAboutY(m: Matrix, c: real, s: real, v: Vec)
    requires m == Matrix(c, 0.0, s, 0.0, 1.0, 0.0, -s, 0.0, c)
    ensures Apply(m, v) == Vec(c * v.x + s * v.z, v.y, c * v.z - s * v.x)
  {
  }

  lemma AppliesAboutZ(m: Matrix, c: real, s: real, v: Vec)
    requires m == Matrix(c, -s, 0.0, s, c, 0.0, 0.0, 0.0, 1.0)
    ensures Apply(m, v) == Vec(c * v.x - s * v.y, s * v.x + c * v.y, v.z)
  {
  }

  lemma TurnX(t: Angle, c: real, s: real, v: Vec)
    requires t.Normalized() && c == t.Cos() && s == t.Sin()
    ensures Rotate(AboutX(t), v) == Vec(v.x, c * v.y - s * v.z, s * v.y + c * v.z)
  {
    RotateIsMatrix(AboutX(t), v);
    MatrixAboutX(t);
    AppliesAboutX(MatrixOf(AboutX(t)), c, s, v);
  }

  lemma TurnY(t: Angle, c: real, s: real, v: Vec)
    requires t.Normalized() && c == t.Cos() && s == t.Sin()
    ensures Rotate(AboutY(t), v) == Vec(c * v.x + s * v.z, v.y, c * v.z - s * v.x)
  {
    RotateIsMatrix(AboutY(t), v);
    MatrixAboutY(t);
    AppliesAboutY(MatrixOf(AboutY(t)), c, s, v);
  }

  lemma TurnZ(t: Angle, c: real, s: real, v: Vec)
    requires t.Normalized() && c == t.Cos() && s == t.Sin()
    ensures Rotate(AboutZ(t), v) == Vec(c * v.x - s * v.y, s * v.x + c * v.y, v.z)
  {
    RotateIsMatrix(AboutZ(t), v);
    MatrixAboutZ(t);
    AppliesAboutZ(MatrixOf(AboutZ(t)), c, s, v);
  }

  /** The fields turn a vector about X, then Y, then Z. */
  lemma EulerTurns(e: Euler, v: Vec)
    requires Normalized(e)
    ensures Rotate(QuaternionFromEuler(e), v) == Rotate(AboutZ(e.z), Rotate(AboutY(e.y), Rotate(AboutX(e.x), v)))
  {
    EulerIsProduct(e);
    EulerIsUnit(e);
    RotateComposes(AboutZ(e.z), Multiply(AboutY(e.y), AboutX(e.x)), v);
    RotateComposes(AboutY(e.y), AboutX(e.x), v);
  }

  lemma EulerTurnsBack(e: Euler, v: Vec)
    requires Normalized(e)
    ensures Rotate(Conjugate(QuaternionFromEuler(e)), v) ==
            Rotate(Conjugate(AboutX(e.x)), Rotate(Conjugate(AboutY(e.y)), Rotate(Conjugate(AboutZ(e.z)), v)))
  {
    var x, y, z, p := AboutX(e.x), AboutY(e.y), AboutZ(e.z), QuaternionFromEuler(e);
    EulerIsUnit(e);
    var u := Rotate(Conjugate(x), Rotate(Conjugate(y), Rotate(Conjugate(z), v)));
    EulerTurns(e, u);
    RotateUndoes(x, Rotate(Conjugate(y), Rotate(Conjugate(z), v)));
    RotateUndoes(y, Rotate(Conjugate(z), v));
    RotateUndoes(z, v);
    RotateUndoes(p, u);
  }

  lemma EulerFirstColumn(e: Euler)
    requires Normalized(e)
    ensures Rotate(QuaternionFromEuler(e), E1) == Vec(e.z.Cos() * e.y.Cos(), e.z.Sin() * e.y.Cos(), -e.y.Sin())
  {
    EulerTurns(e, E1);
    TurnX(e.x, e.x.Cos(), e.x.Sin(), E1);
    TurnY(e.y, e.y.Cos(), e.y.Sin(), E1);
    TurnZ(e.z, e.z.Cos(), e.z.Sin(), Vec(e.y.Cos(), 0.0, -e.y.Sin()));
  }

  lemma SecondAxisUnturned(x: Angle)
    requires x == NO_TURN
    ensures Rotate(AboutX(x), E2) == E2
  {
    RotateIdentity(E2);
  }

  lemma SecondAxisAboutY(y: Angle)
    requires y.Normalized()
    ensures Rotate(AboutY(y), E2) == E2
  {
    ColumnsOf(AboutY(y));
    MatrixAboutY(y);
  }

  lemma SecondAxisAboutZ(z: Angle)
    requires z.Normalized()
    ensures Rotate(AboutZ(z), E2) == Vec(-z.Sin(), z.Cos(), 0.0)
  {
    ColumnsOf(AboutZ(z));
    MatrixAboutZ(z);
  }

  lemma EulerSecondColumn(e: Euler)
    requires Normalized(e) && Rotate(AboutX(e.x), E2) == E2
    ensures Rotate(QuaternionFromEuler(e), E2) == Vec(-e.z.Sin(), e.z.Cos(), 0.0)
  {
    EulerTurns(e, E2);
    SecondAxisAboutY(e.y);
    SecondAxisAboutZ(e.z);
  }

  lemma EulerLastRow(e: Euler)
    requires Normalized(e)
    ensures Rotate(Conjugate(QuaternionFromEuler(e)), E3) ==
            Vec(-e.y.Sin(), e.y.Cos() * e.x.Sin(), e.y.Cos() * e.x.Cos())
  {
    EulerTurnsBack(e, E3);
    ConjugateTurnsBack(e.x);
    ConjugateTurnsBack(e.y);
    ConjugateTurnsBack(e.z);
    var x := Angle(-e.x.radians, -e.x.sinHalf, e.x.cosHalf);
    var y := Angle(-e.y.radians, -e.y.sinHalf, e.y.cosHalf);
    var z := Angle(-e.z.radians, -e.z.sinHalf, e.z.cosHalf);
    TurnZ(z, z.Cos(), z.Sin(), E3);
    TurnY(y, y.Cos(), y.Sin(), E3);
    TurnX(x, x.Cos(), x.Sin(), Vec(-e.y.Sin(), 0.0, e.y.Cos()));
  }

  // -- two vectors fix a rotation --------------------------------------------

  lemma PositiveSquare(a: real, p: real)
    requires a > 0.0 && p == a * a
    ensures p > 0.0
  {
    assert p / a == a;
    assert p == (p / a) * a;
  }

  lemma NonzeroSquare(a: real, p: real)
    requires a != 0.0 && p == a * a
    ensures p > 0.0
  {
    if a > 0.0 {
      PositiveSquare(a, p);
    } else {
      var b := -a;
      assert p == b * b;
      PositiveSquare(b, p);
    }
  }

  lemma SquaresVanish(a: real, b: real)
    requires a * a + b * b == 0.0
    ensures a == 0.0 && b == 0.0
  {
    var p, q := a * a, b * b;
    assert p >= 0.0 && q >= 0.0;
    if a != 0.0 {
      NonzeroSquare(a, p);
    }
    if b != 0.0 {
      NonzeroSquare(b, q);
    }
  }

  lemma TurnScales(w: real, t: real, a: real, c: real)
    requires w * w + t * t == 1.0
    requires t * (w * a + t * c) == 0.0 && t * (w * c - t * a) == 0.0
    ensures t * a == 0.0 && t * c == 0.0
  {
    var p, q := t * (w * a + t * c), t * (w * c - t * a);
    assert t * a == (w * w + t * t) * (t * a) == w * p - t * q;
    assert t * c == (w * w + t * t) * (t * c) == t * p + w * q;
  }

  lemma UnitRoots(w: real)
    requires w * w == 1.0
    ensures w == 1.0 || w == -1.0
  {
    assert (w - 1.0) * (w + 1.0) == 0.0;
  }

  /** A turn about an axis that holds a point off the axis is none. */
  lemma TurnHolds(w: real, t: real, a: real, c: real)
    requires w * w + t * t == 1.0
    requires t * (w * a + t * c) == 0.0 && t * (w * c - t * a) == 0.0
    requires a != 0.0 || c != 0.0
    ensures t == 0.0 && (w == 1.0 || w == -1.0)
  {
    TurnScales(w, t, a, c);
    UnitRoots(w);
  }

  lemma FixesFirstAxis(u: Quat)
    requires Unit(u) && Rotate(u, E1) == E1
    ensures u == Quat(u.w, u.x, 0.0, 0.0) && u.w * u.w + u.x * u.x == 1.0
  {
    ColumnsOf(u);
    SquaresVanish(u.y, u.z);
  }

  lemma FixesSecondAxis(u: Quat)
    requires Unit(u) && Rotate(u, E2) == E2
    ensures u == Quat(u.w, 0.0, u.y, 0.0) && u.w * u.w + u.y * u.y == 1.0
  {
    ColumnsOf(u);
    SquaresVanish(u.x, u.z);
  }

  lemma MatrixFirst(w: real, x: real, v: Vec)
    requires Rotate(Quat(w, x, 0.0, 0.0), v) == v
    ensures x * (w * -v.z + x * -v.y) == 0.0 && x * (w * v.y - x * v.z) == 0.0
  {
  }

  lemma MatrixSecond(w: real, y: real, v: Vec)
    requires Rotate(Quat(w, 0.0, y, 0.0), v) == v
    ensures y * (w * v.z + y * -v.x) == 0.0 && y * (w * -v.x - y * v.z) == 0.0
  {
  }

  lemma HoldsOffFirstAxis(w: real, x: real, v: Vec)
    requires w * w + x * x == 1.0 && Rotate(Quat(w, x, 0.0, 0.0), v) == v
    requires v.y != 0.0 || v.z != 0.0
    ensures x == 0.0 && (w == 1.0 || w == -1.0)
  {
    MatrixFirst(w, x, v);
    TurnHolds(w, x, -v.z, v.y);
  }

  lemma HoldsOffSecondAxis(w: real, y: real, v: Vec)
    requires w * w + y * y == 1.0 && Rotate(Quat(w, 0.0, y, 0.0), v) == v
    requires v.x != 0.0 || v.z != 0.0
    ensures y == 0.0 && (w == 1.0 || w == -1.0)
  {
    MatrixSecond(w, y, v);
    TurnHolds(w, y, v.z, -v.x);
  }

  lemma HoldsFirstAxis(u: Quat, v: Vec)
    requires Unit(u) && Rotate(u, E1) == E1 && Rotate(u, v) == v
    requires v.y != 0.0 || v.z != 0.0
    ensures u == IDENTITY || u == Neg(IDENTITY)
  {
    FixesFirstAxis(u);
    HoldsOffFirstAxis(u.w, u.x, v);
  }

  lemma HoldsSecondAxis(u: Quat, v: Vec)
    requires Unit(u) && Rotate(u, E2) == E2 && Rotate(u, v) == v
    requires v.x != 0.0 || v.z != 0.0
    ensures u == IDENTITY || u == Neg(IDENTITY)
  {
    FixesSecondAxis(u);
    HoldsOffSecondAxis(u.w, u.y, v);
  }

  lemma AgreeOnAxis(p: Quat, q: Quat, a: Vec)
    requires Unit(p) && Unit(q) && Rotate(p, a) == Rotate(q, a)
    ensures Rotate(Multiply(Conjugate(p), q), a) == a
  {
    ConjugateInverts(p);
    RotateComposes(Conjugate(p), q, a);
    RotateUndoes(p, a);
  }

  lemma AgreeOnRow(p: Quat, q: Quat, b: Vec)
    requires Unit(p) && Unit(q) && Rotate(Conjugate(p), b) == Rotate(Conjugate(q), b)
    ensures var v := Rotate(Conjugate(p), b); Rotate(Multiply(Conjugate(p), q), v) == v
  {
    var v := Rotate(Conjugate(p), b);
    ConjugateInverts(p);
    RotateComposes(Conjugate(p), q, v);
    RotateUndoes(q, b);
  }

  lemma SignsApart(p: Quat, q: Quat, u: Quat)
    requires Unit(p) && u == Multiply(Conjugate(p), q)
    requires u == IDENTITY || u == Neg(IDENTITY)
    ensures p == q || p == Neg(q)
  {
    MultiplyAssociates(p, Conjugate(p), q);
    ConjugateInverts(p);
    MultiplyIdentity(q);
    MultiplyIdentity(p);
    NegMultiplies(p, IDENTITY);
    NegNeg(p);
  }

  /** A rotation is known, up to sign, by one column and an off-axis row. */
  lemma AgreeFromFirst(p: Quat, q: Quat)
    requires Unit(p) && Unit(q)
    requires Rotate(p, E1) == Rotate(q, E1) && Rotate(Conjugate(p), E3) == Rotate(Conjugate(q), E3)
    requires Rotate(Conjugate(p), E3).y != 0.0 || Rotate(Conjugate(p), E3).z != 0.0
    ensures p == q || p == Neg(q)
  {
    var u := Multiply(Conjugate(p), q);
    ConjugateInverts(p);
    UnitProduct(Conjugate(p), q);
    AgreeOnAxis(p, q, E1);
    AgreeOnRow(p, q, E3);
    HoldsFirstAxis(u, Rotate(Conjugate(p), E3));
    SignsApart(p, q, u);
  }

  lemma AgreeFromSecond(p: Quat, q: Quat)
    requires Unit(p) && Unit(q)
    requires Rotate(p, E2) == Rotate(q, E2) && Rotate(Conjugate(p), E3) == Rotate(Conjugate(q), E3)
    requires Rotate(Conjugate(p), E3).x != 0.0 || Rotate(Conjugate(p), E3).z != 0.0
    ensures p == q || p == Neg(q)
  {
    var u := Multiply(Conjugate(p), q);
    ConjugateInverts(p);
    UnitProduct(Conjugate(p), q);
    AgreeOnAxis(p, q, E2);
    AgreeOnRow(p, q, E3);
    HoldsSecondAxis(u, Rotate(Conjugate(p), E3));
    SignsApart(p, q, u);
  }

  // -- reading the fields ----------------------------------------------------

  /** What the fields say, by the entries of the matrix. */
  ghost predicate ReadFrom(m: Matrix, e: Euler) {
    && IsAsin(e.y, Clamp(-m.m20))
    && if Locked(e) then
         e.x == NO_TURN && IsAtan2(e.z, -m.m01, m.m11)
       else
         IsAtan2(e.x, m.m21, m.m22) && IsAtan2(e.z, m.m10, m.m00)
  }

  lemma EntriesOfRow(q: Quat)
    ensures 2.0 * (q.w * q.y - q.z * q.x) == -MatrixOf(q).m20
    ensures 2.0 * (q.w * q.x + q.y * q.z) == MatrixOf(q).m21
    ensures 1.0 - 2.0 * (q.x * q.x + q.y * q.y) == MatrixOf(q).m22
  {
  }

  lemma EntriesOfColumns(q: Quat)
    ensures 2.0 * (q.w * q.z + q.x * q.y) == MatrixOf(q).m10
    ensures 1.0 - 2.0 * (q.y * q.y + q.z * q.z) == MatrixOf(q).m00
    ensures -2.0 * (q.x * q.y - q.w * q.z) == -MatrixOf(q).m01
    ensures 1.0 - 2.0 * (q.x * q.x + q.z * q.z) == MatrixOf(q).m11
  {
  }

  lemma SameAtan2(t: Angle, a: real, b: real, c: real, d: real)
    requires IsAtan2(t, a, b) && a == c && b == d
    ensures IsAtan2(t, c, d)
  {
  }

  lemma ReadsPitch(q: Quat, e: Euler)
    requires IsEulerFromQuaternion(q, e)
    ensures IsAsin(e.y, Clamp(-MatrixOf(q).m20))
  {
    EntriesOfRow(q);
  }

  lemma ReadsLockedYaw(q: Quat, e: Euler)
    requires IsEulerFromQuaternion(q, e) && Locked(e)
    ensures e.x == NO_TURN && IsAtan2(e.z, -MatrixOf(q).m01, MatrixOf(q).m11)
  {
    EntriesOfColumns(q);
    SameAtan2(e.z, -2.0 * (q.x * q.y - q.w * q.z), 1.0 - 2.0 * (q.x * q.x + q.z * q.z),
              -MatrixOf(q).m01, MatrixOf(q).m11);
  }

  lemma ReadsRoll(q: Quat, e: Euler)
    requires IsEulerFromQuaternion(q, e) && !Locked(e)
    ensures IsAtan2(e.x, MatrixOf(q).m21, MatrixOf(q).m22)
  {
    EntriesOfRow(q);
    SameAtan2(e.x, 2.0 * (q.w * q.x + q.y * q.z), 1.0 - 2.0 * (q.x * q.x + q.y * q.y),
              MatrixOf(q).m21, MatrixOf(q).m22);
  }

  lemma ReadsYaw(q: Quat, e: Euler)
    requires IsEulerFromQuaternion(q, e) && !Locked(e)
    ensures IsAtan2(e.z, MatrixOf(q).m10, MatrixOf(q).m00)
  {
    EntriesOfColumns(q);
    SameAtan2(e.z, 2.0 * (q.w * q.z + q.x * q.y), 1.0 - 2.0 * (q.y * q.y + q.z * q.z),
              MatrixOf(q).m10, MatrixOf(q).m00);
  }

  lemma SufficeByEntries(q: Quat, e: Euler)
    ensures FieldsSuffice(q, e) == (!Locked(e) || (MatrixOf(q).m21 == 0.0 && MatrixOf(q).m22 >= 0.0))
  {
    EntriesOfRow(q);
  }

  lemma FieldsAreAngles(q: Quat, e: Euler)
    requires IsEulerFromQuaternion(q, e)
    ensures Normalized(e)
  {
  }

  lemma ReadsMatrix(m: Matrix, e: Euler)
    requires IsAsin(e.y, Clamp(-m.m20))
    requires Locked(e) ==> e.x == NO_TURN && IsAtan2(e.z, -m.m01, m.m11)
    requires !Locked(e) ==> IsAtan2(e.x, m.m21, m.m22) && IsAtan2(e.z, m.m10, m.m00)
    ensures ReadFrom(m, e)
  {
  }

  lemma FieldsReadTheMatrix(q: Quat, e: Euler)
    requires IsEulerFromQuaternion(q, e)
    ensures ReadFrom(MatrixOf(q), e) && Normalized(e)
    ensures FieldsSuffice(q, e) == (!Locked(e) || (MatrixOf(q).m21 == 0.0 && MatrixOf(q).m22 >= 0.0))
  {
    ReadsPitch(q, e);
    if Locked(e) {
      ReadsLockedYaw(q, e);
    } else {
      ReadsRoll(q, e);
      ReadsYaw(q, e);
    }
    ReadsMatrix(MatrixOf(q), e);
    SufficeByEntries(q, e);
    FieldsAreAngles(q, e);
  }

  lemma UnitAngle(t: Angle)
    requires t.Normalized()
    ensures t.Sin() * t.Sin() + t.Cos() * t.Cos() == 1.0
  {
    var n := t.sinHalf * t.sinHalf + t.cosHalf * t.cosHalf;
    assert t.Sin() * t.Sin() + t.Cos() * t.Cos() == n * n;
  }

  lemma PositiveProduct(a: real, b: real)
    requires a > 0.0 && b > 0.0
    ensures a * b > 0.0
  {
  }

  lemma SmallerSquare(r: real, k: real)
    requires 0.0 <= r < k
    ensures r * r < k * k
  {
    PositiveProduct(k - r, k + r);
    assert (k - r) * (k + r) == k * k - r * r;
  }

  lemma SameSquare(r: real, k: real)
    requires r >= 0.0 && k >= 0.0 && r * r == k * k
    ensures r == k
  {
    if r < k {
      SmallerSquare(r, k);
    } else if k < r {
      SmallerSquare(k, r);
    }
  }

  lemma ScaledCircle(a: real, b: real, r: real, ts: real, tc: real)
    requires ts * ts + tc * tc == 1.0 && a == r * ts && b == r * tc
    ensures a * a + b * b == r * r
  {
    var n := ts * ts + tc * tc;
    assert a * a + b * b == (r * r) * n;
  }

  /** Two sides of a unit vector, taken as sine and cosine, have the third
      side's cosine for their radius. */
  lemma RadiusIsCosine(a: real, b: real, c: real, s: real, k: real, r: real, ts: real, tc: real)
    requires a * a + b * b + c * c == 1.0
    requires s * s + k * k == 1.0 && c * c == s * s && k >= 0.0
    requires ts * ts + tc * tc == 1.0 && r >= 0.0 && a == r * ts && b == r * tc
    ensures r == k
  {
    ScaledCircle(a, b, r, ts, tc);
    SameSquare(r, k);
  }

  lemma InUnitRange(a: real, b: real, c: real)
    requires a * a + b * b + c * c == 1.0
    ensures -1.0 <= c <= 1.0
  {
    assert c * c <= 1.0;
  }

  /** The sine read for the pitch is the entry itself. */
  lemma PitchIsEntry(q: Quat, e: Euler)
    requires Unit(q) && ReadFrom(MatrixOf(q), e)
    ensures e.y.Sin() == -MatrixOf(q).m20
    ensures UnitVec(Rotate(q, E1)) && UnitVec(Rotate(q, E2)) && UnitVec(Rotate(Conjugate(q), E3))
  {
    ConjugateInverts(q);
    RotateKeepsUnit(q, E1);
    RotateKeepsUnit(q, E2);
    RotateKeepsUnit(Conjugate(q), E3);
    ColumnsOf(q);
    InUnitRange(MatrixOf(q).m00, MatrixOf(q).m10, MatrixOf(q).m20);
  }

  lemma RadiusOf(t: Angle, a: real, b: real, ts: real, tc: real) returns (r: real)
    requires IsAtan2(t, a, b) && ts == t.Sin() && tc == t.Cos()
    ensures r >= 0.0 && a == r * ts && b == r * tc
  {
    r :| HasRadius(t, a, b, r);
  }

  lemma OnCircle(t: Angle, s: real, c: real)
    requires t.Normalized() && s == t.Sin() && c == t.Cos()
    ensures s * s + c * c == 1.0
  {
    UnitAngle(t);
  }

  lemma OppositeSquare(c: real, s: real)
    requires c == -s
    ensures c * c == s * s
  {
  }

  lemma UnitSides(a: real, b: real, c: real, s: real, k: real, r: real, ts: real, tc: real)
    requires a * a + b * b + c * c == 1.0 && s * s + k * k == 1.0 && c == -s && k >= 0.0
    requires ts * ts + tc * tc == 1.0 && r >= 0.0 && a == r * ts && b == r * tc
    ensures a == k * ts && b == k * tc
  {
    OppositeSquare(c, s);
    RadiusIsCosine(a, b, c, s, k, r, ts, tc);
  }

  lemma SidesOf(t: Angle, y: Angle, a: real, b: real, c: real, s: real, k: real, ts: real, tc: real)
    requires t.Normalized() && IsAtan2(t, a, b) && ts == t.Sin() && tc == t.Cos()
    requires y.Normalized() && s == y.Sin() && k == y.Cos() && k >= 0.0
    requires a * a + b * b + c * c == 1.0 && c == -s
    ensures a == k * ts && b == k * tc
  {
    var r := RadiusOf(t, a, b, ts, tc);
    OnCircle(t, ts, tc);
    OnCircle(y, s, k);
    UnitSides(a, b, c, s, k, r, ts, tc);
  }

  lemma SwappedSides(a: real, b: real, c: real)
    requires UnitVec(Vec(b, a, c))
    ensures a * a + b * b + c * c == 1.0
  {
  }

  lemma ScaledOtherWay(a: real, b: real, k: real, ts: real, tc: real)
    requires a == k * ts && b == k * tc
    ensures a == ts * k && b == tc * k
  {
  }

  lemma YawSides(z: Angle, y: Angle, a: real, b: real, c: real, s: real, k: real, ts: real, tc: real)
    requires z.Normalized() && IsAtan2(z, a, b) && ts == z.Sin() && tc == z.Cos()
    requires y.Normalized() && s == y.Sin() && k == y.Cos() && k >= 0.0
    requires UnitVec(Vec(b, a, c)) && c == -s
    ensures Vec(b, a, c) == Vec(tc * k, ts * k, -s)
  {
    SwappedSides(a, b, c);
    SidesOf(z, y, a, b, c, s, k, ts, tc);
    ScaledOtherWay(a, b, k, ts, tc);
  }

  lemma RollSides(x: Angle, y: Angle, a: real, b: real, c: real, s: real, k: real, ts: real, tc: real)
    requires x.Normalized() && IsAtan2(x, a, b) && ts == x.Sin() && tc == x.Cos()
    requires y.Normalized() && s == y.Sin() && k == y.Cos() && k >= 0.0
    requires UnitVec(Vec(c, a, b)) && c == -s
    ensures Vec(c, a, b) == Vec(-s, k * ts, k * tc)
  {
    SidesOf(x, y, a, b, c, s, k, ts, tc);
  }

  /** What unlocked fields read. */
  lemma FreeReads(m: Matrix, e: Euler)
    requires ReadFrom(m, e) && !Locked(e)
    ensures IsAtan2(e.x, m.m21, m.m22) && IsAtan2(e.z, m.m10, m.m00) && e.y.Cos() >= 0.0
  {
  }

  lemma OffAxis(k: real, t: Angle)
    requires k != 0.0 && t.Normalized()
    ensures k * t.Sin() != 0.0 || k * t.Cos() != 0.0
  {
    UnitAngle(t);
  }

  lemma FirstColumnIs(e: Euler, s: real, k: real, ts: real, tc: real)
    requires Normalized(e) && s == e.y.Sin() && k == e.y.Cos() && ts == e.z.Sin() && tc == e.z.Cos()
    ensures Rotate(QuaternionFromEuler(e), E1) == Vec(tc * k, ts * k, -s)
  {
    EulerFirstColumn(e);
  }

  lemma LastRowIs(e: Euler, s: real, k: real, ts: real, tc: real)
    requires Normalized(e) && s == e.y.Sin() && k == e.y.Cos() && ts == e.x.Sin() && tc == e.x.Cos()
    ensures Rotate(Conjugate(QuaternionFromEuler(e)), E3) == Vec(-s, k * ts, k * tc)
  {
    EulerLastRow(e);
  }

  lemma ColumnComesBack(e: Euler, a: Vec, s: real, k: real, ts: real, tc: real)
    requires Normalized(e) && s == e.y.Sin() && k == e.y.Cos() && ts == e.z.Sin() && tc == e.z.Cos()
    requires UnitVec(a) && a.z == -s && k >= 0.0 && IsAtan2(e.z, a.y, a.x)
    ensures Rotate(QuaternionFromEuler(e), E1) == a
  {
    YawSides(e.z, e.y, a.y, a.x, a.z, s, k, ts, tc);
    FirstColumnIs(e, s, k, ts, tc);
  }

  lemma RowComesBack(e: Euler, a: Vec, s: real, k: real, ts: real, tc: real)
    requires Normalized(e) && s == e.y.Sin() && k == e.y.Cos() && ts == e.x.Sin() && tc == e.x.Cos()
    requires UnitVec(a) && a.x == -s && k >= 0.0 && IsAtan2(e.x, a.y, a.z)
    ensures Rotate(Conjugate(QuaternionFromEuler(e)), E3) == a
  {
    RollSides(e.x, e.y, a.y, a.z, a.x, s, k, ts, tc);
    LastRowIs(e, s, k, ts, tc);
  }

  lemma ColumnReads(q: Quat, e: Euler, a: Vec)
    requires Unit(q) && ReadFrom(MatrixOf(q), e) && !Locked(e) && a == Rotate(q, E1)
    ensures UnitVec(a) && a.z == -e.y.Sin() && e.y.Cos() >= 0.0 && IsAtan2(e.z, a.y, a.x)
  {
    PitchIsEntry(q, e);
    ColumnsOf(q);
    FreeReads(MatrixOf(q), e);
  }

  lemma RowReads(q: Quat, e: Euler, a: Vec)
    requires Unit(q) && ReadFrom(MatrixOf(q), e) && !Locked(e) && a == Rotate(Conjugate(q), E3)
    ensures UnitVec(a) && a.x == -e.y.Sin() && e.y.Cos() >= 0.0 && IsAtan2(e.x, a.y, a.z)
  {
    PitchIsEntry(q, e);
    ColumnsOf(q);
    FreeReads(MatrixOf(q), e);
  }

  lemma FreeColumn(q: Quat, e: Euler)
    requires Unit(q) && Normalized(e) && ReadFrom(MatrixOf(q), e) && !Locked(e)
    ensures Rotate(QuaternionFromEuler(e), E1) == Rotate(q, E1)
  {
    ColumnReads(q, e, Rotate(q, E1));
    ColumnComesBack(e, Rotate(q, E1), e.y.Sin(), e.y.Cos(), e.z.Sin(), e.z.Cos());
  }

  lemma FreeRow(q: Quat, e: Euler)
    requires Unit(q) && Normalized(e) && ReadFrom(MatrixOf(q), e) && !Locked(e)
    ensures Rotate(Conjugate(QuaternionFromEuler(e)), E3) == Rotate(Conjugate(q), E3)
  {
    RowReads(q, e, Rotate(Conjugate(q), E3));
    RowComesBack(e, Rotate(Conjugate(q), E3), e.y.Sin(), e.y.Cos(), e.x.Sin(), e.x.Cos());
  }

  lemma FreeOffAxis(e: Euler)
    requires Normalized(e) && !Locked(e)
    ensures var v := Rotate(Conjugate(QuaternionFromEuler(e)), E3); v.y != 0.0 || v.z != 0.0
  {
    EulerLastRow(e);
    OffAxis(e.y.Cos(), e.x);
  }

  lemma FreeFieldsSuffice(q: Quat, e: Euler)
    requires Unit(q) && Normalized(e) && ReadFrom(MatrixOf(q), e) && !Locked(e)
    ensures QuaternionFromEuler(e) == q || QuaternionFromEuler(e) == Neg(q)
  {
    EulerIsUnit(e);
    FreeColumn(q, e);
    FreeRow(q, e);
    FreeOffAxis(e);
    AgreeFromFirst(QuaternionFromEuler(e), q);
  }

  // -- the locked fields -----------------------------------------------------

  lemma ReadLockedColumn(m: Matrix, e: Euler)
    requires Normalized(e) && ReadFrom(m, e) && Locked(e) && m.m21 == 0.0
    requires UnitVec(Vec(m.m01, m.m11, m.m21))
    ensures Vec(m.m01, m.m11, m.m21) == Vec(-e.z.Sin(), e.z.Cos(), 0.0)
  {
    var r :| HasRadius(e.z, -m.m01, m.m11, r);
    UnitAngle(e.z);
    RadiusIsCosine(-m.m01, m.m11, 0.0, 0.0, 1.0, r, e.z.Sin(), e.z.Cos());
  }

  lemma ReadLockedRow(m: Matrix, e: Euler)
    requires Normalized(e) && IsAsin(e.y, Clamp(-m.m20)) && m.m21 == 0.0 && m.m22 >= 0.0
    requires UnitVec(Vec(m.m20, m.m21, m.m22)) && e.y.Sin() == -m.m20
    ensures m.m22 == e.y.Cos()
  {
    UnitAngle(e.y);
    SameSquare(m.m22, e.y.Cos());
  }

  lemma LockedLastRow(e: Euler)
    requires Normalized(e) && e.x == NO_TURN
    ensures Rotate(Conjugate(QuaternionFromEuler(e)), E3) == Vec(-e.y.Sin(), 0.0, e.y.Cos())
  {
    EulerLastRow(e);
  }

  lemma LockedColumn(q: Quat, e: Euler)
    requires Unit(q) && Normalized(e) && ReadFrom(MatrixOf(q), e) && Locked(e) && MatrixOf(q).m21 == 0.0
    ensures Rotate(QuaternionFromEuler(e), E2) == Rotate(q, E2)
  {
    PitchIsEntry(q, e);
    ColumnsOf(q);
    ReadLockedColumn(MatrixOf(q), e);
    SecondAxisUnturned(e.x);
    EulerSecondColumn(e);
  }

  lemma LockedRow(q: Quat, e: Euler)
    requires Unit(q) && Normalized(e) && ReadFrom(MatrixOf(q), e) && Locked(e)
    requires MatrixOf(q).m21 == 0.0 && MatrixOf(q).m22 >= 0.0
    ensures Rotate(Conjugate(QuaternionFromEuler(e)), E3) == Rotate(Conjugate(q), E3)
  {
    PitchIsEntry(q, e);
    ColumnsOf(q);
    ReadLockedRow(MatrixOf(q), e);
    LockedLastRow(e);
  }

  lemma LockedOffAxis(e: Euler)
    requires Normalized(e) && e.x == NO_TURN
    ensures var v := Rotate(Conjugate(QuaternionFromEuler(e)), E3); v.x != 0.0 || v.z != 0.0
  {
    LockedLastRow(e);
    UnitAngle(e.y);
  }

  lemma LockedAgreement(q: Quat, e: Euler, p: Quat)
    requires Unit(q) && Normalized(e) && ReadFrom(MatrixOf(q), e) && Locked(e)
    requires MatrixOf(q).m21 == 0.0 && MatrixOf(q).m22 >= 0.0 && p == QuaternionFromEuler(e)
    ensures Rotate(p, E2) == Rotate(q, E2)
    ensures Rotate(Conjugate(p), E3) == Rotate(Conjugate(q), E3)
  {
    LockedColumn(q, e);
    LockedRow(q, e);
  }

  lemma LockedShape(e: Euler, p: Quat)
    requires Normalized(e) && e.x == NO_TURN && p == QuaternionFromEuler(e)
    ensures Unit(p)
    ensures var v := Rotate(Conjugate(p), E3); v.x != 0.0 || v.z != 0.0
  {
    EulerIsUnit(e);
    LockedOffAxis(e);
  }

  lemma LockedFieldsSuffice(q: Quat, e: Euler, p: Quat)
    requires Unit(q) && Normalized(e) && ReadFrom(MatrixOf(q), e) && Locked(e)
    requires MatrixOf(q).m21 == 0.0 && MatrixOf(q).m22 >= 0.0 && p == QuaternionFromEuler(e)
    ensures p == q || p == Neg(q)
  {
    LockedAgreement(q, e, p);
    LockedShape(e, p);
    AgreeFromSecond(p, q);
  }

  /** What a rotation rebuilt from locked fields looks like. */
  lemma RebuiltHasNoRoll(q: Quat, e: Euler)
    requires Unit(q) && Normalized(e) && e.x == NO_TURN && e.y.Cos() >= 0.0
    requires QuaternionFromEuler(e) == q || QuaternionFromEuler(e) == Neg(q)
    ensures MatrixOf(q).m21 == 0.0 && MatrixOf(q).m22 >= 0.0
  {
    ConjugateInverts(q);
    NegNeg(q);
    RotateIgnoresSign(Conjugate(q), E3);
    LockedLastRow(e);
    ColumnsOf(q);
  }

  lemma LockedRoundTrip(q: Quat, e: Euler, p: Quat)
    requires Unit(q) && Normalized(e) && ReadFrom(MatrixOf(q), e) && Locked(e) && p == QuaternionFromEuler(e)
    ensures (p == q || p == Neg(q)) <==> (MatrixOf(q).m21 == 0.0 && MatrixOf(q).m22 >= 0.0)
  {
    if p == q || p == Neg(q) {
      RebuiltHasNoRoll(q, e);
    }
    if MatrixOf(q).m21 == 0.0 && MatrixOf(q).m22 >= 0.0 {
      LockedFieldsSuffice(q, e, p);
    }
  }

  lemma ReadRoundTrip(q: Quat, e: Euler, p: Quat)
    requires Unit(q) && Normalized(e) && ReadFrom(MatrixOf(q), e) && p == QuaternionFromEuler(e)
    ensures (p == q || p == Neg(q)) <==> (!Locked(e) || (MatrixOf(q).m21 == 0.0 && MatrixOf(q).m22 >= 0.0))
  {
    if Locked(e) {
      LockedRoundTrip(q, e, p);
    } else {
      FreeFieldsSuffice(q, e);
    }
  }

  /** The fields give a rotation back, up to the sign of its quaternion,
      exactly when they suffice for it. */
  lemma FieldsRoundTrip(q: Quat, e: Euler)
    requires Unit(q) && IsEulerFromQuaternion(q, e)
    ensures (QuaternionFromEuler(e) == q || QuaternionFromEuler(e) == Neg(q)) <==> FieldsSuffice(q, e)
  {
    FieldsReadTheMatrix(q, e);
    ReadRoundTrip(q, e, QuaternionFromEuler(e));
  }

  lemma SamePitch(f: Angle, e: Angle)
    requires f.Normalized() && e.Normalized() && f.Cos() >= 0.0 && e.Cos() >= 0.0 && f.Sin() == e.Sin()
    ensures f.Cos() == e.Cos()
  {
    UnitAngle(f);
    UnitAngle(e);
    SameSquare(f.Cos(), e.Cos());
  }

  lemma NoRollLeft(s: real, c: real, k: real)
    requires k > 0.0 && s * s + c * c == 1.0
    ensures (k * s == 0.0 && k * c >= 0.0) <==> c == 1.0
  {
    if c == 1.0 {
      SquaresVanish(s, 0.0);
    } else if k * s == 0.0 {
      SquaresVanish(s, 0.0);
      UnitRoots(c);
    }
  }

  lemma RollSurvives(f: Euler, q: Quat)
    requires Normalized(f) && f.y.Cos() > 0.0 && q == QuaternionFromEuler(f)
    ensures MatrixOf(q).m20 == -f.y.Sin()
    ensures (MatrixOf(q).m21 == 0.0 && MatrixOf(q).m22 >= 0.0) <==> f.x.Cos() == 1.0
  {
    EulerLastRow(f);
    ColumnsOf(q);
    UnitAngle(f.x);
    NoRollLeft(f.x.Sin(), f.x.Cos(), f.y.Cos());
  }

  lemma ReadPitch(f: Euler, q: Quat, e: Euler)
    requires Normalized(f) && f.y.Cos() > 0.0 && q == QuaternionFromEuler(f) && Unit(q)
    requires Normalized(e) && ReadFrom(MatrixOf(q), e)
    ensures e.y.Cos() == f.y.Cos()
  {
    RollSurvives(f, q);
    PitchIsEntry(q, e);
    SamePitch(f.y, e.y);
  }

  /** Within the tolerance of the lock but short of the right angle, fields
      come back exactly when they have no roll. */
  lemma NearLockLosesRoll(f: Euler, q: Quat, e: Euler)
    requires Normalized(f) && f.y.Cos() > 0.0 && Locked(f)
    requires q == QuaternionFromEuler(f) && IsEulerFromQuaternion(q, e)
    ensures (QuaternionFromEuler(e) == q || QuaternionFromEuler(e) == Neg(q)) <==> f.x.Cos() == 1.0
  {
    EulerIsUnit(f);
    FieldsReadTheMatrix(q, e);
    RollSurvives(f, q);
    ReadPitch(f, q, e);
    ReadRoundTrip(q, e, QuaternionFromEuler(e));
  }

  /** Pi, in radians close enough for the reader. */
  const HALF_TURN := Angle(3.141592653589793, 1.0, 0.0)

  lemma HalfRoll(y: Angle, q: Quat)
    requires y.Normalized() && q == Quat(0.0, y.cosHalf, 0.0, -y.sinHalf)
    ensures q == QuaternionFromEuler(Euler(HALF_TURN, y, NO_TURN))
    ensures 2.0 * (q.w * q.y - q.z * q.x) == y.Sin() && -1.0 <= y.Sin() <= 1.0
    ensures -2.0 * (q.x * q.y - q.w * q.z) == 0.0 && 1.0 - 2.0 * (q.x * q.x + q.z * q.z) == -1.0
  {
    UnitAngle(y);
    InUnitRange(y.Cos(), 0.0, y.Sin());
    SineOf(y.sinHalf, y.cosHalf);
  }

  lemma SineOf(s: real, c: real)
    ensures 2.0 * (0.0 * 0.0 - (-s) * c) == 2.0 * s * c
  {
  }

  lemma PitchOf(y: Angle)
    requires y.Normalized() && y.Cos() >= 0.0 && -1.0 <= y.Sin() <= 1.0
    ensures IsAsin(y, Clamp(y.Sin()))
  {
  }

  lemma HalfTurnIsYaw(t: Angle)
    requires t == HALF_TURN
    ensures IsAtan2(t, 0.0, -1.0)
  {
    assert HasRadius(t, 0.0, -1.0, 1.0);
  }

  lemma ReadsHalfTurn(q: Quat, e: Euler, sine: real)
    requires 2.0 * (q.w * q.y - q.z * q.x) == sine && IsAsin(e.y, Clamp(sine))
    requires -2.0 * (q.x * q.y - q.w * q.z) == 0.0 && 1.0 - 2.0 * (q.x * q.x + q.z * q.z) == -1.0
    requires Locked(e) && e.x == NO_TURN && IsAtan2(e.z, 0.0, -1.0)
    ensures IsEulerFromQuaternion(q, e)
  {
    SameAtan2(e.z, 0.0, -1.0, -2.0 * (q.x * q.y - q.w * q.z), 1.0 - 2.0 * (q.x * q.x + q.z * q.z));
  }

  /** Within the lock a roll of half a turn is read back as a yaw of half a
      turn. */
  lemma HalfRollReadsAsYaw(y: Angle, q: Quat, e: Euler)
    requires y.Normalized() && y.Cos() >= 0.0 && q == Quat(0.0, y.cosHalf, 0.0, -y.sinHalf)
    requires e == Euler(NO_TURN, y, HALF_TURN) && Locked(e)
    ensures q == QuaternionFromEuler(Euler(HALF_TURN, y, NO_TURN)) && IsEulerFromQuaternion(q, e)
  {
    HalfRoll(y, q);
    PitchOf(y);
    HalfTurnIsYaw(e.z);
    ReadsHalfTurn(q, e, y.Sin());
  }

  /** A pitch a third of the tolerance short of the right angle. */
  const NEAR_LOCK := Angle(1.5707963267631596, 31509019100.0 / 44560482149.0, 31509019101.0 / 44560482149.0)

  lemma NearLockIsNear(y: Angle)
    requires y == NEAR_LOCK
    ensures y.Normalized() && 0.0 < y.Cos() <= POSE_EPSILON
  {
  }

  lemma HalfTurnIs(t: Angle)
    requires t == HALF_TURN
    ensures t.Normalized() && t.Cos() == -1.0
  {
  }

  lemma NoTurnIs(t: Angle)
    requires t == NO_TURN
    ensures t.Normalized()
  {
  }

  lemma PitchLocks(f: Euler, k: real)
    requires k == f.y.Cos() && 0.0 < k <= POSE_EPSILON
    ensures Locked(f)
  {
  }

  lemma AllNormalized(f: Euler)
    requires f.x.Normalized() && f.y.Normalized() && f.z.Normalized()
    ensures Normalized(f)
  {
  }

  lemma HalfRollFields(f: Euler)
    requires f.x == HALF_TURN && f.y == NEAR_LOCK && f.z == NO_TURN
    ensures Normalized(f)
  {
    HalfTurnIs(f.x);
    NearLockIsNear(f.y);
    NoTurnIs(f.z);
    AllNormalized(f);
  }

  lemma HalfRollLocks(f: Euler)
    requires f.y == NEAR_LOCK
    ensures f.y.Cos() > 0.0 && Locked(f)
  {
    NearLockIsNear(f.y);
    PitchLocks(f, f.y.Cos());
  }

  ghost predicate RollsNearLock(f: Euler) {
    Normalized(f) && f.y.Cos() > 0.0 && Locked(f) && f.x.Cos() != 1.0
  }

  lemma RollIsLost(f: Euler, q: Quat, e: Euler)
    requires RollsNearLock(f)
    requires q == QuaternionFromEuler(f) && IsEulerFromQuaternion(q, e)
    ensures QuaternionFromEuler(e) != q && QuaternionFromEuler(e) != Neg(q)
  {
    NearLockLosesRoll(f, q, e);
  }

  lemma NearLockFields(y: Angle, q: Quat, f: Euler, e: Euler)
    requires y.Normalized() && 0.0 < y.Cos() <= POSE_EPSILON && q == Quat(0.0, y.cosHalf, 0.0, -y.sinHalf)
    requires f == Euler(HALF_TURN, y, NO_TURN) && e == Euler(NO_TURN, y, HALF_TURN)
    ensures q == QuaternionFromEuler(f) && IsEulerFromQuaternion(q, e)
  {
    HalfRollReadsAsYaw(y, q, e);
  }

  lemma NearLockReads(q: Quat, f: Euler, e: Euler)
    requires q == Quat(0.0, NEAR_LOCK.cosHalf, 0.0, -NEAR_LOCK.sinHalf)
    requires f == Euler(HALF_TURN, NEAR_LOCK, NO_TURN) && e == Euler(NO_TURN, NEAR_LOCK, HALF_TURN)
    ensures q == QuaternionFromEuler(f) && IsEulerFromQuaternion(q, e)
  {
    NearLockIsNear(NEAR_LOCK);
    NearLockFields(NEAR_LOCK, q, f, e);
  }

  lemma NearLockRolls(f: Euler)
    requires f.x == HALF_TURN && f.y == NEAR_LOCK && f.z == NO_TURN
    ensures RollsNearLock(f)
  {
    HalfRollFields(f);
    HalfRollLocks(f);
    HalfTurnIs(f.x);
  }

  /** There such a roll comes back as another rotation. */
  lemma NearLock(q: Quat, f: Euler, e: Euler)
    requires q == Quat(0.0, NEAR_LOCK.cosHalf, 0.0, -NEAR_LOCK.sinHalf)
    requires f == Euler(HALF_TURN, NEAR_LOCK, NO_TURN) && e == Euler(NO_TURN, NEAR_LOCK, HALF_TURN)
    ensures q == QuaternionFromEuler(f) && IsEulerFromQuaternion(q, e)
    ensures QuaternionFromEuler(e) != q && QuaternionFromEuler(e) != Neg(q)
  {
    NearLockReads(q, f, e);
    NearLockRolls(f);
    RollIsLost(f, q, e);
  }
}
