/**
  Rotation by unit quaternions over the reals: products, conjugates and the
  action on vectors.
*/
module Quaternions {

  datatype Vec = Vec(x: real, y: real, z: real)

  datatype Quat = Quat(w: real, x: real, y: real, z: real)

  const IDENTITY := Quat(1.0, 0.0, 0.0, 0.0)

  function Norm2(q: Quat): real {
    q.w * q.w + q.x * q.x + q.y * q.y + q.z * q.z
  }

  predicate Unit(q: Quat) {
    Norm2(q) == 1.0
  }

  function Neg(q: Quat): Quat {
    Quat(-q.w, -q.x, -q.y, -q.z)
  }

  function Conjugate(q: Quat): Quat {
    Quat(q.w, -q.x, -q.y, -q.z)
  }

  function Multiply(l: Quat, r: Quat): Quat {
    Quat(
      l.w * r.w - l.x * r.x - l.y * r.y - l.z * r.z,
      l.w * r.x + l.x * r.w + l.y * r.z - l.z * r.y,
      l.w * r.y - l.x * r.z + l.y * r.w + l.z * r.x,
      l.w * r.z + l.x * r.y - l.y * r.x + l.z * r.w)
  }

  function TwiceCross(q: Quat, v: Vec): Vec {
    Vec(2.0 * (q.y * v.z - q.z * v.y), 2.0 * (q.z * v.x - q.x * v.z), 2.0 * (q.x * v.y - q.y * v.x))
  }

  function AddTwiceCross(q: Quat, v: Vec, t: Vec): Vec {
    Vec(
      v.x + q.w * t.x + (q.y * t.z - q.z * t.y),
      v.y + q.w * t.y + (q.z * t.x - q.x * t.z),
      v.z + q.w * t.z + (q.x * t.y - q.y * t.x))
  }

  /** The rotated vector, by the two cross products. */
  function Rotate(q: Quat, v: Vec): Vec {
    AddTwiceCross(q, v, TwiceCross(q, v))
  }

  function Pure(v: Vec): Quat {
    Quat(0.0, v.x, v.y, v.z)
  }

  // -- algebra ---------------------------------------------------------------
  //
  // Each identity is first shown one component at a time.

  /** `p` is the product, component by component. */
  ghost predicate IsProduct(l: Quat, r: Quat, p: Quat) {
    && p.w == l.w * r.w - l.x * r.x - l.y * r.y - l.z * r.z
    && p.x == l.w * r.x + l.x * r.w + l.y * r.z - l.z * r.y
    && p.y == l.w * r.y - l.x * r.z + l.y * r.w + l.z * r.x
    && p.z == l.w * r.z + l.x * r.y - l.y * r.x + l.z * r.w
  }

  lemma MultiplyIs(l: Quat, r: Quat)
    ensures IsProduct(l, r, Multiply(l, r))
  {
  }

  lemma AssociateW(aw: real, ax: real, ay: real, az: real, bw: real, bx: real, by0: real, bz: real,
                   cw: real, cx: real, cy: real, cz: real,
                   pw: real, px: real, py: real, pz: real, qw: real, qx: real, qy: real, qz: real)
    requires pw == aw * bw - ax * bx - ay * by0 - az * bz
    requires px == aw * bx + ax * bw + ay * bz - az * by0
    requires py == aw * by0 - ax * bz + ay * bw + az * bx
    requires pz == aw * bz + ax * by0 - ay * bx + az * bw
    requires qw == bw * cw - bx * cx - by0 * cy - bz * cz
    requires qx == bw * cx + bx * cw + by0 * cz - bz * cy
    requires qy == bw * cy - bx * cz + by0 * cw + bz * cx
    requires qz == bw * cz + bx * cy - by0 * cx + bz * cw
    ensures pw * cw - px * cx - py * cy - pz * cz == aw * qw - ax * qx - ay * qy - az * qz
  {
  }

  lemma AssociateX(aw: real, ax: real, ay: real, az: real, bw: real, bx: real, by0: real, bz: real,
                   cw: real, cx: real, cy: real, cz: real,
                   pw: real, px: real, py: real, pz: real, qw: real, qx: real, qy: real, qz: real)
    requires pw == aw * bw - ax * bx - ay * by0 - az * bz
    requires px == aw * bx + ax * bw + ay * bz - az * by0
    requires py == aw * by0 - ax * bz + ay * bw + az * bx
    requires pz == aw * bz + ax * by0 - ay * bx + az * bw
    requires qw == bw * cw - bx * cx - by0 * cy - bz * cz
    requires qx == bw * cx + bx * cw + by0 * cz - bz * cy
    requires qy == bw * cy - bx * cz + by0 * cw + bz * cx
    requires qz == bw * cz + bx * cy - by0 * cx + bz * cw
    ensures pw * cx + px * cw + py * cz - pz * cy == aw * qx + ax * qw + ay * qz - az * qy
  {
  }

  lemma AssociateY(aw: real, ax: real, ay: real, az: real, bw: real, bx: real, by0: real, bz: real,
                   cw: real, cx: real, cy: real, cz: real,
                   pw: real, px: real, py: real, pz: real, qw: real, qx: real, qy: real, qz: real)
    requires pw == aw * bw - ax * bx - ay * by0 - az * bz
    requires px == aw * bx + ax * bw + ay * bz - az * by0
    requires py == aw * by0 - ax * bz + ay * bw + az * bx
    requires pz == aw * bz + ax * by0 - ay * bx + az * bw
    requires qw == bw * cw - bx * cx - by0 * cy - bz * cz
    requires qx == bw * cx + bx * cw + by0 * cz - bz * cy
    requires qy == bw * cy - bx * cz + by0 * cw + bz * cx
    requires qz == bw * cz + bx * cy - by0 * cx + bz * cw
    ensures pw * cy - px * cz + py * cw + pz * cx == aw * qy - ax * qz + ay * qw + az * qx
  {
  }

  lemma AssociateZ(aw: real, ax: real, ay: real, az: real, bw: real, bx: real, by0: real, bz: real,
                   cw: real, cx: real, cy: real, cz: real,
                   pw: real, px: real, py: real, pz: real, qw: real, qx: real, qy: real, qz: real)
    requires pw == aw * bw - ax * bx - ay * by0 - az * bz
    requires px == aw * bx + ax * bw + ay * bz - az * by0
    requires py == aw * by0 - ax * bz + ay * bw + az * bx
    requires pz == aw * bz + ax * by0 - ay * bx + az * bw
    requires qw == bw * cw - bx * cx - by0 * cy - bz * cz
    requires qx == bw * cx + bx * cw + by0 * cz - bz * cy
    requires qy == bw * cy - bx * cz + by0 * cw + bz * cx
    requires qz == bw * cz + bx * cy - by0 * cx + bz * cw
    ensures pw * cz + px * cy - py * cx + pz * cw == aw * qz + ax * qy - ay * qx + az * qw
  {
  }

  lemma AssociatesW(a: Quat, b: Quat, c: Quat, ab: Quat, bc: Quat, left: Quat, right: Quat)
    requires IsProduct(a, b, ab) && IsProduct(b, c, bc) && IsProduct(ab, c, left) && IsProduct(a, bc, right)
    ensures left.w == right.w
  {
    AssociateW(a.w, a.x, a.y, a.z, b.w, b.x, b.y, b.z, c.w, c.x, c.y, c.z, ab.w, ab.x, ab.y, ab.z,
               bc.w, bc.x, bc.y, bc.z);
  }

  lemma AssociatesX(a: Quat, b: Quat, c: Quat, ab: Quat, bc: Quat, left: Quat, right: Quat)
    requires IsProduct(a, b, ab) && IsProduct(b, c, bc) && IsProduct(ab, c, left) && IsProduct(a, bc, right)
    ensures left.x == right.x
  {
    AssociateX(a.w, a.x, a.y, a.z, b.w, b.x, b.y, b.z, c.w, c.x, c.y, c.z, ab.w, ab.x, ab.y, ab.z,
               bc.w, bc.x, bc.y, bc.z);
  }

  lemma AssociatesY(a: Quat, b: Quat, c: Quat, ab: Quat, bc: Quat, left: Quat, right: Quat)
    requires IsProduct(a, b, ab) && IsProduct(b, c, bc) && IsProduct(ab, c, left) && IsProduct(a, bc, right)
    ensures left.y == right.y
  {
    AssociateY(a.w, a.x, a.y, a.z, b.w, b.x, b.y, b.z, c.w, c.x, c.y, c.z, ab.w, ab.x, ab.y, ab.z,
               bc.w, bc.x, bc.y, bc.z);
  }

  lemma AssociatesZ(a: Quat, b: Quat, c: Quat, ab: Quat, bc: Quat, left: Quat, right: Quat)
    requires IsProduct(a, b, ab) && IsProduct(b, c, bc) && IsProduct(ab, c, left) && IsProduct(a, bc, right)
    ensures left.z == right.z
  {
    AssociateZ(a.w, a.x, a.y, a.z, b.w, b.x, b.y, b.z, c.w, c.x, c.y, c.z, ab.w, ab.x, ab.y, ab.z,
               bc.w, bc.x, bc.y, bc.z);
  }

  lemma MultiplyAssociates(a: Quat, b: Quat, c: Quat)
    ensures Multiply(Multiply(a, b), c) == Multiply(a, Multiply(b, c))
  {
    var ab, bc := Multiply(a, b), Multiply(b, c);
    var left, right := Multiply(ab, c), Multiply(a, bc);
    MultiplyIs(a, b);
    MultiplyIs(b, c);
    MultiplyIs(ab, c);
    MultiplyIs(a, bc);
    AssociatesW(a, b, c, ab, bc, left, right);
    AssociatesX(a, b, c, ab, bc, left, right);
    AssociatesY(a, b, c, ab, bc, left, right);
    AssociatesZ(a, b, c, ab, bc, left, right);
  }

  // -- conjugates ------------------------------------------------------------

  lemma ReversesW(a: Quat, b: Quat, p: Quat, r: Quat)
    requires IsProduct(a, b, p) && IsProduct(Conjugate(b), Conjugate(a), r)
    ensures r.w == p.w
  {
  }

  lemma ReversesX(a: Quat, b: Quat, p: Quat, r: Quat)
    requires IsProduct(a, b, p) && IsProduct(Conjugate(b), Conjugate(a), r)
    ensures r.x == -p.x
  {
  }

  lemma ReversesY(a: Quat, b: Quat, p: Quat, r: Quat)
    requires IsProduct(a, b, p) && IsProduct(Conjugate(b), Conjugate(a), r)
    ensures r.y == -p.y
  {
  }

  lemma ReversesZ(a: Quat, b: Quat, p: Quat, r: Quat)
    requires IsProduct(a, b, p) && IsProduct(Conjugate(b), Conjugate(a), r)
    ensures r.z == -p.z
  {
  }

  lemma ConjugateReverses(a: Quat, b: Quat)
    ensures Conjugate(Multiply(a, b)) == Multiply(Conjugate(b), Conjugate(a))
  {
    var p, r := Multiply(a, b), Multiply(Conjugate(b), Conjugate(a));
    MultiplyIs(a, b);
    MultiplyIs(Conjugate(b), Conjugate(a));
    ReversesW(a, b, p, r);
    ReversesX(a, b, p, r);
    ReversesY(a, b, p, r);
    ReversesZ(a, b, p, r);
  }

  lemma ConjugateNorm(q: Quat)
    ensures Multiply(q, Conjugate(q)) == Quat(Norm2(q), 0.0, 0.0, 0.0)
    ensures Multiply(Conjugate(q), q) == Quat(Norm2(q), 0.0, 0.0, 0.0)
  {
  }

  lemma MultiplyIdentity(q: Quat)
    ensures Multiply(q, IDENTITY) == q && Multiply(IDENTITY, q) == q
  {
  }

  lemma NegW(a: Quat, b: Quat, p: Quat, n: Quat)
    requires IsProduct(a, b, p) && (IsProduct(Neg(a), b, n) || IsProduct(a, Neg(b), n))
    ensures n.w == -p.w
  {
  }

  lemma NegX(a: Quat, b: Quat, p: Quat, n: Quat)
    requires IsProduct(a, b, p) && (IsProduct(Neg(a), b, n) || IsProduct(a, Neg(b), n))
    ensures n.x == -p.x
  {
  }

  lemma NegY(a: Quat, b: Quat, p: Quat, n: Quat)
    requires IsProduct(a, b, p) && (IsProduct(Neg(a), b, n) || IsProduct(a, Neg(b), n))
    ensures n.y == -p.y
  {
  }

  lemma NegZ(a: Quat, b: Quat, p: Quat, n: Quat)
    requires IsProduct(a, b, p) && (IsProduct(Neg(a), b, n) || IsProduct(a, Neg(b), n))
    ensures n.z == -p.z
  {
  }

  lemma NegMultiplies(a: Quat, b: Quat)
    ensures Multiply(Neg(a), b) == Neg(Multiply(a, b))
    ensures Multiply(a, Neg(b)) == Neg(Multiply(a, b))
  {
    var p, l, r := Multiply(a, b), Multiply(Neg(a), b), Multiply(a, Neg(b));
    MultiplyIs(a, b);
    MultiplyIs(Neg(a), b);
    MultiplyIs(a, Neg(b));
    NegW(a, b, p, l);
    NegW(a, b, p, r);
    NegX(a, b, p, l);
    NegX(a, b, p, r);
    NegY(a, b, p, l);
    NegY(a, b, p, r);
    NegZ(a, b, p, l);
    NegZ(a, b, p, r);
  }

  lemma ConjugateInverts(q: Quat)
    requires Unit(q)
    ensures Unit(Conjugate(q)) && Unit(Neg(q))
    ensures Multiply(q, Conjugate(q)) == IDENTITY
    ensures Multiply(Conjugate(q), q) == IDENTITY
  {
    ConjugateNorm(q);
  }

  /** Products of unit quaternions are unit quaternions, so normalising a
      product changes nothing. */
  lemma UnitProduct(p: Quat, q: Quat)
    requires Unit(p) && Unit(q)
    ensures Unit(Multiply(p, q))
  {
    var pq := Multiply(p, q);
    ConjugateReverses(p, q);
    MultiplyAssociates(p, q, Multiply(Conjugate(q), Conjugate(p)));
    MultiplyAssociates(q, Conjugate(q), Conjugate(p));
    ConjugateInverts(p);
    ConjugateInverts(q);
    MultiplyIdentity(Conjugate(p));
    ConjugateNorm(pq);
    assert Multiply(pq, Conjugate(pq)) == IDENTITY;
  }

  // -- the rotation matrix ---------------------------------------------------

  datatype Matrix = Matrix(
    m00: real, m01: real, m02: real,
    m10: real, m11: real, m12: real,
    m20: real, m21: real, m22: real)

  function MatrixOf(q: Quat): Matrix {
    Matrix(
      1.0 - 2.0 * (q.y * q.y + q.z * q.z), 2.0 * (q.x * q.y - q.w * q.z), 2.0 * (q.x * q.z + q.w * q.y),
      2.0 * (q.x * q.y + q.w * q.z), 1.0 - 2.0 * (q.x * q.x + q.z * q.z), 2.0 * (q.y * q.z - q.w * q.x),
      2.0 * (q.x * q.z - q.w * q.y), 2.0 * (q.y * q.z + q.w * q.x), 1.0 - 2.0 * (q.x * q.x + q.y * q.y))
  }

  function Apply(m: Matrix, v: Vec): Vec {
    Vec(
      m.m00 * v.x + m.m01 * v.y + m.m02 * v.z,
      m.m10 * v.x + m.m11 * v.y + m.m12 * v.z,
      m.m20 * v.x + m.m21 * v.y + m.m22 * v.z)
  }

  lemma CrossX(w: real, x: real, y: real, z: real, a: real, b: real, c: real, tx: real, ty: real, tz: real)
    requires tx == 2.0 * (y * c - z * b) && ty == 2.0 * (z * a - x * c) && tz == 2.0 * (x * b - y * a)
    ensures a + w * tx + (y * tz - z * ty) ==
            a + 2.0 * w * (y * c - z * b) + 2.0 * y * (x * b - y * a) - 2.0 * z * (z * a - x * c)
  {
  }

  lemma EntriesX(w: real, x: real, y: real, z: real, a: real, b: real, c: real, m0: real, m1: real, m2: real)
    requires m0 == 1.0 - 2.0 * (y * y + z * z) && m1 == 2.0 * (x * y - w * z) && m2 == 2.0 * (x * z + w * y)
    ensures m0 * a + m1 * b + m2 * c ==
            a + 2.0 * w * (y * c - z * b) + 2.0 * y * (x * b - y * a) - 2.0 * z * (z * a - x * c)
  {
  }

  lemma RowX(w: real, x: real, y: real, z: real, a: real, b: real, c: real, tx: real, ty: real, tz: real,
             m0: real, m1: real, m2: real)
    requires tx == 2.0 * (y * c - z * b) && ty == 2.0 * (z * a - x * c) && tz == 2.0 * (x * b - y * a)
    requires m0 == 1.0 - 2.0 * (y * y + z * z) && m1 == 2.0 * (x * y - w * z) && m2 == 2.0 * (x * z + w * y)
    ensures a + w * tx + (y * tz - z * ty) == m0 * a + m1 * b + m2 * c
  {
    CrossX(w, x, y, z, a, b, c, tx, ty, tz);
    EntriesX(w, x, y, z, a, b, c, m0, m1, m2);
  }

  ghost predicate IsTwiceCross(q: Quat, v: Vec, t: Vec) {
    && t.x == 2.0 * (q.y * v.z - q.z * v.y)
    && t.y == 2.0 * (q.z * v.x - q.x * v.z)
    && t.z == 2.0 * (q.x * v.y - q.y * v.x)
  }

  lemma TwiceCrossIs(q: Quat, v: Vec)
    ensures IsTwiceCross(q, v, TwiceCross(q, v))
  {
  }

  ghost predicate IsMatrix(q: Quat, m: Matrix) {
    && m.m00 == 1.0 - 2.0 * (q.y * q.y + q.z * q.z)
    && m.m01 == 2.0 * (q.x * q.y - q.w * q.z)
    && m.m02 == 2.0 * (q.x * q.z + q.w * q.y)
    && m.m10 == 2.0 * (q.x * q.y + q.w * q.z)
    && m.m11 == 1.0 - 2.0 * (q.x * q.x + q.z * q.z)
    && m.m12 == 2.0 * (q.y * q.z - q.w * q.x)
    && m.m20 == 2.0 * (q.x * q.z - q.w * q.y)
    && m.m21 == 2.0 * (q.y * q.z + q.w * q.x)
    && m.m22 == 1.0 - 2.0 * (q.x * q.x + q.y * q.y)
  }

  lemma MatrixIs(q: Quat)
    ensures IsMatrix(q, MatrixOf(q))
  {
  }

  lemma RotatesRowX(q: Quat, v: Vec, t: Vec, m: Matrix)
    requires IsTwiceCross(q, v, t) && IsMatrix(q, m)
    ensures AddTwiceCross(q, v, t).x == Apply(m, v).x
  {
    RowX(q.w, q.x, q.y, q.z, v.x, v.y, v.z, t.x, t.y, t.z, m.m00, m.m01, m.m02);
  }

  lemma CrossY(w: real, x: real, y: real, z: real, a: real, b: real, c: real, tx: real, ty: real, tz: real)
    requires tx == 2.0 * (y * c - z * b) && ty == 2.0 * (z * a - x * c) && tz == 2.0 * (x * b - y * a)
    ensures b + w * ty + (z * tx - x * tz) ==
            b + 2.0 * w * (z * a - x * c) + 2.0 * z * (y * c - z * b) - 2.0 * x * (x * b - y * a)
  {
  }

  lemma EntriesY(w: real, x: real, y: real, z: real, a: real, b: real, c: real, m0: real, m1: real, m2: real)
    requires m0 == 2.0 * (x * y + w * z) && m1 == 1.0 - 2.0 * (x * x + z * z) && m2 == 2.0 * (y * z - w * x)
    ensures m0 * a + m1 * b + m2 * c ==
            b + 2.0 * w * (z * a - x * c) + 2.0 * z * (y * c - z * b) - 2.0 * x * (x * b - y * a)
  {
  }

  lemma RowY(w: real, x: real, y: real, z: real, a: real, b: real, c: real, tx: real, ty: real, tz: real,
             m0: real, m1: real, m2: real)
    requires tx == 2.0 * (y * c - z * b) && ty == 2.0 * (z * a - x * c) && tz == 2.0 * (x * b - y * a)
    requires m0 == 2.0 * (x * y + w * z) && m1 == 1.0 - 2.0 * (x * x + z * z) && m2 == 2.0 * (y * z - w * x)
    ensures b + w * ty + (z * tx - x * tz) == m0 * a + m1 * b + m2 * c
  {
    CrossY(w, x, y, z, a, b, c, tx, ty, tz);
    EntriesY(w, x, y, z, a, b, c, m0, m1, m2);
  }

  lemma RotatesRowY(q: Quat, v: Vec, t: Vec, m: Matrix)
    requires IsTwiceCross(q, v, t) && IsMatrix(q, m)
    ensures AddTwiceCross(q, v, t).y == Apply(m, v).y
  {
    RowY(q.w, q.x, q.y, q.z, v.x, v.y, v.z, t.x, t.y, t.z, m.m10, m.m11, m.m12);
  }

  lemma CrossZ(w: real, x: real, y: real, z: real, a: real, b: real, c: real, tx: real, ty: real, tz: real)
    requires tx == 2.0 * (y * c - z * b) && ty == 2.0 * (z * a - x * c) && tz == 2.0 * (x * b - y * a)
    ensures c + w * tz + (x * ty - y * tx) ==
            c + 2.0 * w * (x * b - y * a) + 2.0 * x * (z * a - x * c) - 2.0 * y * (y * c - z * b)
  {
  }

  lemma EntriesZ(w: real, x: real, y: real, z: real, a: real, b: real, c: real, m0: real, m1: real, m2: real)
    requires m0 == 2.0 * (x * z - w * y) && m1 == 2.0 * (y * z + w * x) && m2 == 1.0 - 2.0 * (x * x + y * y)
    ensures m0 * a + m1 * b + m2 * c ==
            c + 2.0 * w * (x * b - y * a) + 2.0 * x * (z * a - x * c) - 2.0 * y * (y * c - z * b)
  {
  }

  lemma RowZ(w: real, x: real, y: real, z: real, a: real, b: real, c: real, tx: real, ty: real, tz: real,
             m0: real, m1: real, m2: real)
    requires tx == 2.0 * (y * c - z * b) && ty == 2.0 * (z * a - x * c) && tz == 2.0 * (x * b - y * a)
    requires m0 == 2.0 * (x * z - w * y) && m1 == 2.0 * (y * z + w * x) && m2 == 1.0 - 2.0 * (x * x + y * y)
    ensures c + w * tz + (x * ty - y * tx) == m0 * a + m1 * b + m2 * c
  {
    CrossZ(w, x, y, z, a, b, c, tx, ty, tz);
    EntriesZ(w, x, y, z, a, b, c, m0, m1, m2);
  }

  lemma RotatesRowZ(q: Quat, v: Vec, t: Vec, m: Matrix)
    requires IsTwiceCross(q, v, t) && IsMatrix(q, m)
    ensures AddTwiceCross(q, v, t).z == Apply(m, v).z
  {
    RowZ(q.w, q.x, q.y, q.z, v.x, v.y, v.z, t.x, t.y, t.z, m.m20, m.m21, m.m22);
  }

  /** The two cross products apply the matrix. */
  lemma RotateIsMatrix(q: Quat, v: Vec)
    ensures Rotate(q, v) == Apply(MatrixOf(q), v)
  {
    var t, m := TwiceCross(q, v), MatrixOf(q);
    TwiceCrossIs(q, v);
    MatrixIs(q);
    RotatesRowX(q, v, t, m);
    RotatesRowY(q, v, t, m);
    RotatesRowZ(q, v, t, m);
  }

  // -- the conjugate's matrix ------------------------------------------------

  lemma OppositeProducts(a: real, b: real, w: real, c: real)
    ensures 2.0 * ((-a) * (-b) + w * -c) == 2.0 * (a * b - w * c)
    ensures 2.0 * ((-a) * (-b) - w * -c) == 2.0 * (a * b + w * c)
  {
  }

  lemma OppositeSquares(a: real, b: real)
    ensures 1.0 - 2.0 * ((-a) * (-a) + (-b) * (-b)) == 1.0 - 2.0 * (a * a + b * b)
  {
  }

  lemma DiagonalStays(q: Quat, c: Quat)
    requires c == Conjugate(q)
    ensures 1.0 - 2.0 * (c.y * c.y + c.z * c.z) == 1.0 - 2.0 * (q.y * q.y + q.z * q.z)
    ensures 1.0 - 2.0 * (c.x * c.x + c.z * c.z) == 1.0 - 2.0 * (q.x * q.x + q.z * q.z)
    ensures 1.0 - 2.0 * (c.x * c.x + c.y * c.y) == 1.0 - 2.0 * (q.x * q.x + q.y * q.y)
  {
    OppositeSquares(q.y, q.z);
    OppositeSquares(q.x, q.z);
    OppositeSquares(q.x, q.y);
  }

  lemma PairsSwap(q: Quat, m: Matrix, t: Matrix)
    requires IsMatrix(q, m) && IsMatrix(Conjugate(q), t)
    ensures t.m01 == m.m10 && t.m02 == m.m20 && t.m12 == m.m21
    ensures t.m10 == m.m01 && t.m20 == m.m02 && t.m21 == m.m12
  {
    OppositeProducts(q.x, q.y, q.w, q.z);
    OppositeProducts(q.x, q.z, q.w, q.y);
    OppositeProducts(q.y, q.z, q.w, q.x);
  }

  lemma DiagonalSame(q: Quat, m: Matrix, t: Matrix)
    requires IsMatrix(q, m) && IsMatrix(Conjugate(q), t)
    ensures t.m00 == m.m00 && t.m11 == m.m11 && t.m22 == m.m22
  {
    DiagonalStays(q, Conjugate(q));
  }

  /** The conjugate turns by the transpose. */
  lemma ConjugateTransposes(q: Quat)
    ensures var m, t := MatrixOf(q), MatrixOf(Conjugate(q));
            t == Matrix(m.m00, m.m10, m.m20, m.m01, m.m11, m.m21, m.m02, m.m12, m.m22)
  {
    MatrixIs(q);
    MatrixIs(Conjugate(q));
    DiagonalSame(q, MatrixOf(q), MatrixOf(Conjugate(q)));
    PairsSwap(q, MatrixOf(q), MatrixOf(Conjugate(q)));
  }

  // -- the sandwich product --------------------------------------------------

  ghost predicate IsHalfSandwich(q: Quat, v: Vec, m: Quat) {
    && m.w == v.x * q.x + v.y * q.y + v.z * q.z
    && m.x == v.x * q.w - v.y * q.z + v.z * q.y
    && m.y == v.x * q.z + v.y * q.w - v.z * q.x
    && m.z == -v.x * q.y + v.y * q.x + v.z * q.w
  }

  lemma HalfSandwichIs(q: Quat, v: Vec)
    ensures IsHalfSandwich(q, v, Multiply(Pure(v), Conjugate(q)))
  {
  }

  lemma UnitScales(w: real, x: real, y: real, z: real, c: real)
    requires w * w + x * x + y * y + z * z == 1.0
    ensures w * w * c + x * x * c + y * y * c + z * z * c == c
  {
    assert (w * w + x * x + y * y + z * z) * c == 1.0 * c;
  }

  lemma SandwichW(w: real, x: real, y: real, z: real, a: real, b: real, c: real, mw: real, mx: real, my: real, mz: real)
    requires mw == a * x + b * y + c * z
    requires mx == a * w - b * z + c * y
    requires my == a * z + b * w - c * x
    requires mz == -a * y + b * x + c * w
    ensures w * mw - x * mx - y * my - z * mz == 0.0
  {
  }

  lemma SandwichIsW(q: Quat, v: Vec, m: Quat, s: Quat)
    requires IsHalfSandwich(q, v, m) && IsProduct(q, m, s)
    ensures s.w == 0.0
  {
    SandwichW(q.w, q.x, q.y, q.z, v.x, v.y, v.z, m.w, m.x, m.y, m.z);
  }

  lemma SandwichExcessX(w: real, x: real, y: real, z: real, a: real, b: real, c: real,
                        mw: real, mx: real, my: real, mz: real, m0: real, m1: real, m2: real, part: real)
    requires mw == a * x + b * y + c * z
    requires mx == a * w - b * z + c * y
    requires my == a * z + b * w - c * x
    requires mz == -a * y + b * x + c * w
    requires m0 == 1.0 - 2.0 * (y * y + z * z) && m1 == 2.0 * (x * y - w * z) && m2 == 2.0 * (x * z + w * y)
    requires part == w * w * a + x * x * a + y * y * a + z * z * a
    ensures w * mx + x * mw + y * mz - z * my == part - a + (m0 * a + m1 * b + m2 * c)
  {
  }

  lemma SandwichX(w: real, x: real, y: real, z: real, a: real, b: real, c: real, mw: real, mx: real, my: real, mz: real,
                  m0: real, m1: real, m2: real)
    requires w * w + x * x + y * y + z * z == 1.0
    requires mw == a * x + b * y + c * z
    requires mx == a * w - b * z + c * y
    requires my == a * z + b * w - c * x
    requires mz == -a * y + b * x + c * w
    requires m0 == 1.0 - 2.0 * (y * y + z * z) && m1 == 2.0 * (x * y - w * z) && m2 == 2.0 * (x * z + w * y)
    ensures w * mx + x * mw + y * mz - z * my == m0 * a + m1 * b + m2 * c
  {
    UnitScales(w, x, y, z, a);
    SandwichExcessX(w, x, y, z, a, b, c, mw, mx, my, mz, m0, m1, m2, a);
  }

  lemma SandwichIsX(q: Quat, v: Vec, m: Quat, s: Quat, r: Matrix)
    requires Unit(q) && IsMatrix(q, r) && IsHalfSandwich(q, v, m) && IsProduct(q, m, s)
    ensures s.x == Apply(r, v).x
  {
    SandwichX(q.w, q.x, q.y, q.z, v.x, v.y, v.z, m.w, m.x, m.y, m.z, r.m00, r.m01, r.m02);
  }

  lemma SandwichExcessY(w: real, x: real, y: real, z: real, a: real, b: real, c: real,
                        mw: real, mx: real, my: real, mz: real, m0: real, m1: real, m2: real, part: real)
    requires mw == a * x + b * y + c * z
    requires mx == a * w - b * z + c * y
    requires my == a * z + b * w - c * x
    requires mz == -a * y + b * x + c * w
    requires m0 == 2.0 * (x * y + w * z) && m1 == 1.0 - 2.0 * (x * x + z * z) && m2 == 2.0 * (y * z - w * x)
    requires part == w * w * b + x * x * b + y * y * b + z * z * b
    ensures w * my - x * mz + y * mw + z * mx == part - b + (m0 * a + m1 * b + m2 * c)
  {
  }

  lemma SandwichY(w: real, x: real, y: real, z: real, a: real, b: real, c: real, mw: real, mx: real, my: real, mz: real,
                  m0: real, m1: real, m2: real)
    requires w * w + x * x + y * y + z * z == 1.0
    requires mw == a * x + b * y + c * z
    requires mx == a * w - b * z + c * y
    requires my == a * z + b * w - c * x
    requires mz == -a * y + b * x + c * w
    requires m0 == 2.0 * (x * y + w * z) && m1 == 1.0 - 2.0 * (x * x + z * z) && m2 == 2.0 * (y * z - w * x)
    ensures w * my - x * mz + y * mw + z * mx == m0 * a + m1 * b + m2 * c
  {
    UnitScales(w, x, y, z, b);
    SandwichExcessY(w, x, y, z, a, b, c, mw, mx, my, mz, m0, m1, m2, b);
  }

  lemma SandwichIsY(q: Quat, v: Vec, m: Quat, s: Quat, r: Matrix)
    requires Unit(q) && IsMatrix(q, r) && IsHalfSandwich(q, v, m) && IsProduct(q, m, s)
    ensures s.y == Apply(r, v).y
  {
    SandwichY(q.w, q.x, q.y, q.z, v.x, v.y, v.z, m.w, m.x, m.y, m.z, r.m10, r.m11, r.m12);
  }

  lemma SandwichExcessZ(w: real, x: real, y: real, z: real, a: real, b: real, c: real,
                        mw: real, mx: real, my: real, mz: real, m0: real, m1: real, m2: real, part: real)
    requires mw == a * x + b * y + c * z
    requires mx == a * w - b * z + c * y
    requires my == a * z + b * w - c * x
    requires mz == -a * y + b * x + c * w
    requires m0 == 2.0 * (x * z - w * y) && m1 == 2.0 * (y * z + w * x) && m2 == 1.0 - 2.0 * (x * x + y * y)
    requires part == w * w * c + x * x * c + y * y * c + z * z * c
    ensures w * mz + x * my - y * mx + z * mw == part - c + (m0 * a + m1 * b + m2 * c)
  {
  }

  lemma SandwichZ(w: real, x: real, y: real, z: real, a: real, b: real, c: real, mw: real, mx: real, my: real, mz: real,
                  m0: real, m1: real, m2: real)
    requires w * w + x * x + y * y + z * z == 1.0
    requires mw == a * x + b * y + c * z
    requires mx == a * w - b * z + c * y
    requires my == a * z + b * w - c * x
    requires mz == -a * y + b * x + c * w
    requires m0 == 2.0 * (x * z - w * y) && m1 == 2.0 * (y * z + w * x) && m2 == 1.0 - 2.0 * (x * x + y * y)
    ensures w * mz + x * my - y * mx + z * mw == m0 * a + m1 * b + m2 * c
  {
    UnitScales(w, x, y, z, c);
    SandwichExcessZ(w, x, y, z, a, b, c, mw, mx, my, mz, m0, m1, m2, c);
  }

  lemma SandwichIsZ(q: Quat, v: Vec, m: Quat, s: Quat, r: Matrix)
    requires Unit(q) && IsMatrix(q, r) && IsHalfSandwich(q, v, m) && IsProduct(q, m, s)
    ensures s.z == Apply(r, v).z
  {
    SandwichZ(q.w, q.x, q.y, q.z, v.x, v.y, v.z, m.w, m.x, m.y, m.z, r.m20, r.m21, r.m22);
  }

  /** Rotating is the sandwich product with the conjugate. */
  lemma RotateIsSandwich(q: Quat, v: Vec)
    requires Unit(q)
    ensures Pure(Rotate(q, v)) == Multiply(q, Multiply(Pure(v), Conjugate(q)))
  {
    var m, r := Multiply(Pure(v), Conjugate(q)), MatrixOf(q);
    var s := Multiply(q, m);
    RotateIsMatrix(q, v);
    HalfSandwichIs(q, v);
    MultiplyIs(q, m);
    MatrixIs(q);
    SandwichIsW(q, v, m, s);
    SandwichIsX(q, v, m, s, r);
    SandwichIsY(q, v, m, s, r);
    SandwichIsZ(q, v, m, s, r);
  }

  lemma SandwichComposes(p: Quat, q: Quat, m: Quat)
    ensures Multiply(Multiply(p, q), Multiply(m, Conjugate(Multiply(p, q)))) ==
            Multiply(p, Multiply(Multiply(q, Multiply(m, Conjugate(q))), Conjugate(p)))
  {
    var inner := Multiply(m, Conjugate(q));
    ConjugateReverses(p, q);
    MultiplyAssociates(m, Conjugate(q), Conjugate(p));
    MultiplyAssociates(p, q, Multiply(inner, Conjugate(p)));
    MultiplyAssociates(q, inner, Conjugate(p));
  }

  lemma PureIsInjective(u: Vec, v: Vec)
    requires Pure(u) == Pure(v)
    ensures u == v
  {
  }

  /** Rotating by a product is rotating by its factors in turn. */
  lemma RotateComposes(p: Quat, q: Quat, v: Vec)
    requires Unit(p) && Unit(q)
    ensures Rotate(Multiply(p, q), v) == Rotate(p, Rotate(q, v))
  {
    UnitProduct(p, q);
    RotateIsSandwich(Multiply(p, q), v);
    RotateIsSandwich(q, v);
    RotateIsSandwich(p, Rotate(q, v));
    SandwichComposes(p, q, Pure(v));
    PureIsInjective(Rotate(Multiply(p, q), v), Rotate(p, Rotate(q, v)));
  }

  lemma RotateIdentity(v: Vec)
    ensures Rotate(IDENTITY, v) == v
  {
  }

  lemma RotateUndoes(q: Quat, v: Vec)
    requires Unit(q)
    ensures Rotate(Conjugate(q), Rotate(q, v)) == v
    ensures Rotate(q, Rotate(Conjugate(q), v)) == v
  {
    ConjugateInverts(q);
    RotateComposes(Conjugate(q), q, v);
    RotateComposes(q, Conjugate(q), v);
    RotateIdentity(v);
  }

  lemma NegNeg(q: Quat)
    ensures Neg(Neg(q)) == q && Conjugate(Neg(q)) == Neg(Conjugate(q))
  {
  }

  /** A rotation does not see the sign of its quaternion. */
  lemma RotateIgnoresSign(q: Quat, v: Vec)
    requires Unit(q)
    ensures Rotate(Neg(q), v) == Rotate(q, v)
  {
    ConjugateInverts(q);
    RotateIsSandwich(q, v);
    RotateIsSandwich(Neg(q), v);
    NegNeg(q);
    NegMultiplies(Pure(v), Conjugate(q));
    var m := Multiply(Pure(v), Conjugate(q));
    NegMultiplies(q, m);
    NegMultiplies(q, Neg(m));
    NegNeg(Multiply(q, m));
    PureIsInjective(Rotate(Neg(q), v), Rotate(q, v));
  }
}
