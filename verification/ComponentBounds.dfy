/**
  The world box of a placed component, and laying a new component beside the
  boxes already taken.
*/
module ComponentBounds {
  import opened Results
  import opened Quaternions
  import opened EulerFields
  import opened Assembly

  datatype Box = Box(min: Vec, max: Vec)

  predicate Solid(b: Box) {
    b.min.x < b.max.x && b.min.y < b.max.y && b.min.z < b.max.z
  }

  predicate Inside(b: Box, v: Vec) {
    b.min.x <= v.x <= b.max.x && b.min.y <= v.y <= b.max.y && b.min.z <= v.z <= b.max.z
  }

  predicate Encloses(outer: Box, inner: Box) {
    Inside(outer, inner.min) && Inside(outer, inner.max)
  }

  /** Corner `i` of eight, the last axis varying fastest. */
  function Corner(b: Box, i: nat): Vec {
    Vec(
      if i / 4 % 2 == 0 then b.min.x else b.max.x,
      if i / 2 % 2 == 0 then b.min.y else b.max.y,
      if i % 2 == 0 then b.min.z else b.max.z)
  }

  function PlacedCorner(b: Box, p: Pose, i: nat): Vec {
    Place(p, Corner(b, i))
  }

  // -- the box over the corners ----------------------------------------------

  function Lower(a: Vec, b: Vec): Vec {
    Vec(if b.x < a.x then b.x else a.x, if b.y < a.y then b.y else a.y, if b.z < a.z then b.z else a.z)
  }

  function Upper(a: Vec, b: Vec): Vec {
    Vec(if b.x > a.x then b.x else a.x, if b.y > a.y then b.y else a.y, if b.z > a.z then b.z else a.z)
  }

  /** The box over placed corners `0..n`. */
  function Hull(b: Box, p: Pose, n: nat): Box
    requires 0 < n
  {
    var c := PlacedCorner(b, p, n - 1);
    if n == 1 then Box(c, c)
    else
      var rest := Hull(b, p, n - 1);
      Box(Lower(rest.min, c), Upper(rest.max, c))
  }

  function ComponentWorldBounds(b: Box, p: Pose): Result<Box, PlacementError> {
    if !Solid(b) then Failure(InvalidBounds) else Success(Hull(b, p, 8))
  }

  // -- the hull is the least box ---------------------------------------------

  datatype Axis = X | Y | Z

  function Along(v: Vec, axis: Axis): real {
    match axis
    case X => v.x
    case Y => v.y
    case Z => v.z
  }

  datatype Side = Side(axis: Axis, high: bool)

  predicate OnSide(h: Box, v: Vec, side: Side) {
    Along(v, side.axis) == Along(if side.high then h.max else h.min, side.axis)
  }

  lemma {:induction false} HullHolds(b: Box, p: Pose, n: nat, i: nat)
    requires i < n
    ensures Inside(Hull(b, p, n), PlacedCorner(b, p, i))
  {
    if n > 1 && i < n - 1 {
      HullHolds(b, p, n - 1, i);
    }
  }

  lemma {:induction false} HullAttained(b: Box, p: Pose, n: nat, side: Side) returns (i: nat)
    requires 0 < n
    ensures i < n && OnSide(Hull(b, p, n), PlacedCorner(b, p, i), side)
  {
    if OnSide(Hull(b, p, n), PlacedCorner(b, p, n - 1), side) {
      i := n - 1;
    } else {
      i := HullAttained(b, p, n - 1, side);
    }
  }

  // -- every image lies between corners --------------------------------------

  function Dot(a: Vec, v: Vec): real {
    a.x * v.x + a.y * v.y + a.z * v.z
  }

  function RowOf(m: Matrix, axis: Axis): Vec {
    match axis
    case X => Vec(m.m00, m.m01, m.m02)
    case Y => Vec(m.m10, m.m11, m.m12)
    case Z => Vec(m.m20, m.m21, m.m22)
  }

  /** The row of the rotation matrix along an axis. */
  function Row(q: Quat, axis: Axis): Vec {
    RowOf(MatrixOf(q), axis)
  }

  lemma AppliesAlong(m: Matrix, v: Vec, axis: Axis)
    ensures Along(Apply(m, v), axis) == Dot(RowOf(m, axis), v)
  {
  }

  lemma AddsAlong(u: Vec, v: Vec, axis: Axis)
    ensures Along(Add(u, v), axis) == Along(u, axis) + Along(v, axis)
  {
  }

  lemma PlaceAlong(p: Pose, v: Vec, axis: Axis)
    ensures Along(Place(p, v), axis) == Dot(Row(p.rotation, axis), v) + Along(p.translation, axis)
  {
    RotateIsMatrix(p.rotation, v);
    AppliesAlong(MatrixOf(p.rotation), v, axis);
    AddsAlong(Rotate(p.rotation, v), p.translation, axis);
  }

  /** The corner at the top of a linear function. */
  function TopCorner(a: Vec): (i: nat)
    ensures i < 8
    ensures i / 4 % 2 == (if a.x >= 0.0 then 1 else 0)
    ensures i / 2 % 2 == (if a.y >= 0.0 then 1 else 0)
    ensures i % 2 == (if a.z >= 0.0 then 1 else 0)
  {
    (if a.x >= 0.0 then 4 else 0) + (if a.y >= 0.0 then 2 else 0) + (if a.z >= 0.0 then 1 else 0)
  }

  lemma Raises(a: real, d: real)
    requires (a >= 0.0 && d >= 0.0) || (a <= 0.0 && d <= 0.0)
    ensures a * d >= 0.0
  {
  }

  lemma SlopeTop(a: real, lo: real, x: real, hi: real, top: real)
    requires lo <= x <= hi && top == if a >= 0.0 then hi else lo
    ensures a * x <= a * top
  {
    Raises(a, top - x);
    assert a * (top - x) == a * top - a * x;
  }

  lemma LinearTop(box: Box, v: Vec, a: Vec, top: Vec)
    requires Inside(box, v) && top == Corner(box, TopCorner(a))
    ensures Dot(a, v) <= Dot(a, top)
  {
    SlopeTop(a.x, box.min.x, v.x, box.max.x, top.x);
    SlopeTop(a.y, box.min.y, v.y, box.max.y, top.y);
    SlopeTop(a.z, box.min.z, v.z, box.max.z, top.z);
    SumsOrdered(a.x * v.x, a.y * v.y, a.z * v.z, a.x * top.x, a.y * top.y, a.z * top.z);
  }

  lemma SumsOrdered(a: real, b: real, c: real, d: real, e: real, f: real)
    requires a <= d && b <= e && c <= f
    ensures a + b + c <= d + e + f
  {
  }

  lemma DotOpposite(a: Vec, v: Vec, b: Vec)
    requires b == Vec(-a.x, -a.y, -a.z)
    ensures Dot(b, v) == -Dot(a, v)
  {
  }

  /** Along an axis, the image lies between two corners' images. */
  lemma BetweenCorners(box: Box, p: Pose, v: Vec, axis: Axis) returns (i: nat, j: nat)
    requires Inside(box, v)
    ensures i < 8 && Along(PlacedCorner(box, p, i), axis) <= Along(Place(p, v), axis)
    ensures j < 8 && Along(Place(p, v), axis) <= Along(PlacedCorner(box, p, j), axis)
  {
    var a := Row(p.rotation, axis);
    var b := Vec(-a.x, -a.y, -a.z);
    i, j := TopCorner(b), TopCorner(a);
    var low, top := Corner(box, i), Corner(box, j);
    LinearTop(box, v, a, top);
    LinearTop(box, v, b, low);
    DotOpposite(a, v, b);
    DotOpposite(a, low, b);
    PlaceAlong(p, v, axis);
    PlaceAlong(p, low, axis);
    PlaceAlong(p, top, axis);
  }

  lemma CornersBound(box: Box, p: Pose, h: Box, v: Vec)
    requires Inside(box, v) && forall i: nat :: i < 8 ==> Inside(h, PlacedCorner(box, p, i))
    ensures Inside(h, Place(p, v))
  {
    var i0, j0 := BetweenCorners(box, p, v, X);
    var i1, j1 := BetweenCorners(box, p, v, Y);
    var i2, j2 := BetweenCorners(box, p, v, Z);
    InsideBetween(h, PlacedCorner(box, p, i0), PlacedCorner(box, p, j0), Place(p, v), X);
    InsideBetween(h, PlacedCorner(box, p, i1), PlacedCorner(box, p, j1), Place(p, v), Y);
    InsideBetween(h, PlacedCorner(box, p, i2), PlacedCorner(box, p, j2), Place(p, v), Z);
    InsideAlong(h, Place(p, v));
  }

  lemma InsideBetween(h: Box, low: Vec, high: Vec, v: Vec, axis: Axis)
    requires Inside(h, low) && Inside(h, high) && Along(low, axis) <= Along(v, axis) <= Along(high, axis)
    ensures Along(h.min, axis) <= Along(v, axis) <= Along(h.max, axis)
  {
  }

  lemma InsideAlong(h: Box, v: Vec)
    ensures Inside(h, v) <==> forall axis :: Along(h.min, axis) <= Along(v, axis) <= Along(h.max, axis)
  {
    if forall axis :: Along(h.min, axis) <= Along(v, axis) <= Along(h.max, axis) {
      assert Along(h.min, X) <= Along(v, X) <= Along(h.max, X);
      assert Along(h.min, Y) <= Along(v, Y) <= Along(h.max, Y);
      assert Along(h.min, Z) <= Along(v, Z) <= Along(h.max, Z);
    }
  }

  /** A box takes in the image of every point of the component. */
  ghost predicate TakesIn(h: Box, box: Box, p: Pose) {
    forall v :: Inside(box, v) ==> Inside(h, Place(p, v))
  }

  lemma CornerInside(box: Box, i: nat)
    requires Solid(box)
    ensures Inside(box, Corner(box, i))
  {
  }

  lemma SideTaken(box: Box, p: Pose, h: Box, side: Side)
    requires Solid(box) && TakesIn(h, box, p)
    ensures var w := Hull(box, p, 8);
            Along(h.min, side.axis) <= Along(if side.high then w.max else w.min, side.axis) <= Along(h.max, side.axis)
  {
    var i := HullAttained(box, p, 8, side);
    CornerInside(box, i);
    InsideAlong(h, Place(p, Corner(box, i)));
  }

  /** The world bounds are the least box that takes in the whole placed
      component, whatever the rotation. */
  lemma WorldBoundsAreLeast(box: Box, p: Pose, h: Box)
    requires Solid(box)
    ensures ComponentWorldBounds(box, p).Success?
    ensures TakesIn(h, box, p) <==> Encloses(h, ComponentWorldBounds(box, p).value)
  {
    var w := Hull(box, p, 8);
    if TakesIn(h, box, p) {
      forall axis
        ensures Along(h.min, axis) <= Along(w.min, axis) <= Along(h.max, axis)
        ensures Along(h.min, axis) <= Along(w.max, axis) <= Along(h.max, axis)
      {
        SideTaken(box, p, h, Side(axis, false));
        SideTaken(box, p, h, Side(axis, true));
      }
      InsideAlong(h, w.min);
      InsideAlong(h, w.max);
    }
    if Encloses(h, w) {
      forall i: nat | i < 8 ensures Inside(h, PlacedCorner(box, p, i)) {
        HullHolds(box, p, 8, i);
      }
      forall v | Inside(box, v) ensures Inside(h, Place(p, v)) {
        CornersBound(box, p, h, v);
      }
    }
  }

  // -- the bounds are solid again --------------------------------------------

  lemma RowIsTurnedBack(q: Quat, axis: Axis)
    requires Unit(q)
    ensures UnitVec(Row(q, axis))
  {
    ConjugateInverts(q);
    var e := match axis case X => E1 case Y => E2 case Z => E3;
    RotateKeepsUnit(Conjugate(q), e);
    RotateIsMatrix(Conjugate(q), e);
    ApplyToAxes(MatrixOf(Conjugate(q)));
    RowTransposes(q);
  }

  lemma RowTransposes(q: Quat)
    ensures var t := MatrixOf(Conjugate(q));
            Row(q, X) == Vec(t.m00, t.m10, t.m20) && Row(q, Y) == Vec(t.m01, t.m11, t.m21) &&
            Row(q, Z) == Vec(t.m02, t.m12, t.m22)
  {
    ConjugateTransposes(q);
  }

  lemma Spread(a: real, lo: real, hi: real, top: real, low: real)
    requires lo < hi && top == (if a >= 0.0 then hi else lo) && low == (if -a >= 0.0 then hi else lo)
    ensures a * low <= a * top && (a != 0.0 ==> a * low < a * top)
  {
    Raises(a, top - low);
    assert a * (top - low) == a * top - a * low;
    if a > 0.0 {
      PositiveProduct(a, top - low);
    } else if a < 0.0 {
      PositiveProduct(-a, low - top);
      assert -a * (low - top) == a * top - a * low;
    }
  }

  lemma SpreadCorners(box: Box, a: Vec, b: Vec, top: Vec, low: Vec)
    requires Solid(box) && UnitVec(a) && b == Vec(-a.x, -a.y, -a.z)
    requires top == Corner(box, TopCorner(a)) && low == Corner(box, TopCorner(b))
    ensures Dot(a, low) < Dot(a, top)
  {
    Spread(a.x, box.min.x, box.max.x, top.x, low.x);
    Spread(a.y, box.min.y, box.max.y, top.y, low.y);
    Spread(a.z, box.min.z, box.max.z, top.z, low.z);
  }

  lemma HullIsWide(box: Box, p: Pose, axis: Axis)
    requires Solid(box) && Unit(p.rotation)
    ensures var w := Hull(box, p, 8); Along(w.min, axis) < Along(w.max, axis)
  {
    var a := Row(p.rotation, axis);
    var b := Vec(-a.x, -a.y, -a.z);
    var i, j := TopCorner(b), TopCorner(a);
    RowIsTurnedBack(p.rotation, axis);
    SpreadCorners(box, a, b, Corner(box, j), Corner(box, i));
    PlaceAlong(p, Corner(box, i), axis);
    PlaceAlong(p, Corner(box, j), axis);
    HullHolds(box, p, 8, i);
    HullHolds(box, p, 8, j);
    InsideAlong(Hull(box, p, 8), PlacedCorner(box, p, i));
    InsideAlong(Hull(box, p, 8), PlacedCorner(box, p, j));
  }

  /** The world bounds of a component can always be laid beside: they are
      never flat. */
  lemma WorldBoundsAreSolid(box: Box, p: Pose)
    requires Solid(box) && Unit(p.rotation)
    ensures Solid(Hull(box, p, 8))
  {
    HullIsWide(box, p, X);
    HullIsWide(box, p, Y);
    HullIsWide(box, p, Z);
  }
}
