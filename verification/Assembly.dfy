/**
  Placing rigid components: the move/rotate preview and its inverse, the
  bounding box of a turned box, and laying a new component beside the others.

  Numbers are real, so every value is finite and unit quaternions stay unit:
  the checks for finite input and the renormalisations change nothing here.
*/
module Assembly {
  import opened Results
  import opened Quaternions
  import opened EulerFields

  const MAX_COMPONENT_TRANSLATION: real := 1000000000000.0

  datatype PlacementError = InvalidBounds | InvalidClearance | InvalidTranslation | GroundedComponent

  // -- poses -----------------------------------------------------------------

  datatype Pose = Pose(translation: Vec, rotation: Quat)

  function Add(a: Vec, b: Vec): Vec {
    Vec(a.x + b.x, a.y + b.y, a.z + b.z)
  }

  function Sub(a: Vec, b: Vec): Vec {
    Vec(a.x - b.x, a.y - b.y, a.z - b.z)
  }

  predicate Within(v: Vec, limit: real) {
    -limit <= v.x <= limit && -limit <= v.y <= limit && -limit <= v.z <= limit
  }

  predicate FirstNonzeroIsNegative(q: Quat) {
    if q.w != 0.0 then q.w < 0.0
    else if q.x != 0.0 then q.x < 0.0
    else if q.y != 0.0 then q.y < 0.0
    else q.z < 0.0
  }

  /** One sign of each pair of opposite quaternions. */
  function Canonical(q: Quat): Quat {
    if FirstNonzeroIsNegative(q) then Neg(q) else q
  }

  predicate ValidPose(p: Pose) {
    Within(p.translation, MAX_COMPONENT_TRANSLATION) && Unit(p.rotation) && !FirstNonzeroIsNegative(p.rotation)
  }

  function RigidPose(translation: Vec, rotation: Quat): (r: Result<Pose, PlacementError>)
    requires Unit(rotation)
    ensures r.Success? ==> ValidPose(r.value)
  {
    ConjugateInverts(rotation);
    if !Within(translation, MAX_COMPONENT_TRANSLATION) then
      Failure(InvalidTranslation)
    else
      Success(Pose(translation, Canonical(rotation)))
  }

  lemma CanonicalChoosesOne(q: Quat, c: Quat)
    requires Unit(q) && Unit(c) && !FirstNonzeroIsNegative(c)
    ensures Canonical(q) == c <==> (q == c || q == Neg(c))
  {
    NegNeg(c);
    NegNeg(q);
    if q == Neg(c) {
      NegatedSign(c);
    }
  }

  /** The first number that is not zero is positive. */
  predicate LeadsPositive(c: Quat) {
    || c.w > 0.0
    || (c.w == 0.0 && c.x > 0.0)
    || (c.w == 0.0 && c.x == 0.0 && c.y > 0.0)
    || (c.w == 0.0 && c.x == 0.0 && c.y == 0.0 && c.z > 0.0)
  }

  lemma NonzeroLeads(q: Quat)
    requires q.w != 0.0 || q.x != 0.0 || q.y != 0.0 || q.z != 0.0
    ensures LeadsPositive(Canonical(q))
  {
  }

  /** The sign chosen leads with a positive number. */
  lemma CanonicalLeads(q: Quat)
    requires Unit(q)
    ensures LeadsPositive(Canonical(q))
  {
    if q.w == 0.0 && q.x == 0.0 && q.y == 0.0 && q.z == 0.0 {
      assert false;
    }
    NonzeroLeads(q);
  }

  lemma NegatedSign(c: Quat)
    requires Unit(c) && !FirstNonzeroIsNegative(c)
    ensures FirstNonzeroIsNegative(Neg(c))
  {
  }

  /** Where a pose puts a local point. */
  function Place(p: Pose, v: Vec): Vec {
    Add(Rotate(p.rotation, v), p.translation)
  }

  // -- the move/rotate preview -----------------------------------------------

  datatype MoveRotatePreview = MoveRotatePreview(translation: Vec, rotation: Euler) {
    predicate IsIdentity() {
      Within(translation, POSE_EPSILON)
      && Within(Vec(rotation.x.radians, rotation.y.radians, rotation.z.radians), POSE_EPSILON)
    }
  }

  function ComposeMoveRotatePreview(current: Pose, preview: MoveRotatePreview, pivot: Vec,
                                    grounded: bool): (r: Result<Pose, PlacementError>)
    requires Unit(current.rotation) && Normalized(preview.rotation)
  {
    if preview.IsIdentity() then
      Success(current)
    else if grounded then
      Failure(GroundedComponent)
    else
      var turn := QuaternionFromEuler(preview.rotation);
      EulerIsUnit(preview.rotation);
      UnitProduct(turn, current.rotation);
      RigidPose(
        Add(Sub(Add(pivot, preview.translation), Rotate(turn, pivot)), Rotate(turn, current.translation)),
        Multiply(turn, current.rotation))
  }

  function TurnBetween(current: Pose, target: Pose): Quat {
    Multiply(target.rotation, Conjugate(current.rotation))
  }

  /** The preview that takes one pose to another about a pivot. */
  ghost predicate IsPreviewBetween(current: Pose, target: Pose, pivot: Vec, preview: MoveRotatePreview) {
    var turn := TurnBetween(current, target);
    && preview.translation ==
         Sub(Add(Sub(target.translation, pivot), Rotate(turn, pivot)), Rotate(turn, current.translation))
    && IsEulerFromQuaternion(turn, preview.rotation)
  }

  // -- previews move points --------------------------------------------------

  lemma RowAdds(a: real, b: real, c: real, u: Vec, v: Vec)
    ensures a * (u.x + v.x) + b * (u.y + v.y) + c * (u.z + v.z) ==
            (a * u.x + b * u.y + c * u.z) + (a * v.x + b * v.y + c * v.z)
  {
  }

  lemma FirstAdds(m: Matrix, u: Vec, v: Vec)
    ensures Apply(m, Add(u, v)).x == Apply(m, u).x + Apply(m, v).x
  {
    RowAdds(m.m00, m.m01, m.m02, u, v);
  }

  lemma SecondAdds(m: Matrix, u: Vec, v: Vec)
    ensures Apply(m, Add(u, v)).y == Apply(m, u).y + Apply(m, v).y
  {
    RowAdds(m.m10, m.m11, m.m12, u, v);
  }

  lemma ThirdAdds(m: Matrix, u: Vec, v: Vec)
    ensures Apply(m, Add(u, v)).z == Apply(m, u).z + Apply(m, v).z
  {
    RowAdds(m.m20, m.m21, m.m22, u, v);
  }

  lemma SumOf(w: Vec, u: Vec, v: Vec)
    requires w.x == u.x + v.x && w.y == u.y + v.y && w.z == u.z + v.z
    ensures w == Add(u, v)
  {
  }

  lemma RotateAdds(q: Quat, u: Vec, v: Vec)
    ensures Rotate(q, Add(u, v)) == Add(Rotate(q, u), Rotate(q, v))
  {
    var m := MatrixOf(q);
    RotateIsMatrix(q, u);
    RotateIsMatrix(q, v);
    RotateIsMatrix(q, Add(u, v));
    FirstAdds(m, u, v);
    SecondAdds(m, u, v);
    ThirdAdds(m, u, v);
    SumOf(Rotate(q, Add(u, v)), Rotate(q, u), Rotate(q, v));
  }

  lemma RotateSubtracts(q: Quat, u: Vec, v: Vec)
    ensures Rotate(q, Sub(u, v)) == Sub(Rotate(q, u), Rotate(q, v))
  {
    RotateAdds(q, Sub(u, v), v);
    assert Add(Sub(u, v), v) == u;
  }

  lemma ComposedPose(current: Pose, preview: MoveRotatePreview, pivot: Vec, turn: Quat, next: Pose)
    requires Unit(current.rotation) && Normalized(preview.rotation) && !preview.IsIdentity()
    requires turn == QuaternionFromEuler(preview.rotation)
    requires ComposeMoveRotatePreview(current, preview, pivot, false) == Success(next)
    ensures Unit(turn) && Unit(Multiply(turn, current.rotation))
    ensures next.rotation == Canonical(Multiply(turn, current.rotation))
    ensures next.translation ==
            Add(Sub(Add(pivot, preview.translation), Rotate(turn, pivot)), Rotate(turn, current.translation))
  {
    EulerIsUnit(preview.rotation);
    UnitProduct(turn, current.rotation);
  }

  /** No number of the preview is past the tolerance. */
  predicate NoLarger(preview: MoveRotatePreview, tolerance: real) {
    var t, r := preview.translation, preview.rotation;
    && -tolerance <= t.x <= tolerance && -tolerance <= t.y <= tolerance && -tolerance <= t.z <= tolerance
    && -tolerance <= r.x.radians <= tolerance
    && -tolerance <= r.y.radians <= tolerance
    && -tolerance <= r.z.radians <= tolerance
  }

  predicate FarOut(v: Vec) {
    || v.x > 1000000000000.0 || v.y > 1000000000000.0 || v.z > 1000000000000.0
    || v.x < -1000000000000.0 || v.y < -1000000000000.0 || v.z < -1000000000000.0
  }

  /** Where the preview takes the component's own origin. */
  function MovedOrigin(current: Pose, preview: MoveRotatePreview, pivot: Vec): Vec {
    var turn := QuaternionFromEuler(preview.rotation);
    Add(Add(pivot, Rotate(turn, Sub(current.translation, pivot))), preview.translation)
  }

  lemma OriginMoves(current: Pose, preview: MoveRotatePreview, pivot: Vec, turn: Quat)
    requires turn == QuaternionFromEuler(preview.rotation)
    ensures Add(Sub(Add(pivot, preview.translation), Rotate(turn, pivot)), Rotate(turn, current.translation)) ==
            MovedOrigin(current, preview, pivot)
  {
    RotateSubtracts(turn, current.translation, pivot);
  }

  /** What composing a preview comes to. One with no number past the tolerance
      leaves the pose; any other is refused for a grounded component, and for
      one that would stand out of range; so a grounded component never
      moves. */
  lemma CompositionOutcome(current: Pose, preview: MoveRotatePreview, pivot: Vec, grounded: bool)
    requires Unit(current.rotation) && Normalized(preview.rotation)
    ensures var r := ComposeMoveRotatePreview(current, preview, pivot, grounded);
            && (NoLarger(preview, 0.0000000001) ==> r == Success(current))
            && (grounded && r.Success? ==> r.value == current)
            && (r == Failure(GroundedComponent) <==> grounded && !NoLarger(preview, 0.0000000001))
            && (r == Failure(InvalidTranslation) <==>
                  !grounded && !NoLarger(preview, 0.0000000001) && FarOut(MovedOrigin(current, preview, pivot)))
            && (r.Failure? ==> r.error == GroundedComponent || r.error == InvalidTranslation)
  {
    EulerIsUnit(preview.rotation);
    UnitProduct(QuaternionFromEuler(preview.rotation), current.rotation);
    OriginMoves(current, preview, pivot, QuaternionFromEuler(preview.rotation));
  }

  lemma CanonicalTurns(q: Quat, v: Vec)
    requires Unit(q)
    ensures Rotate(Canonical(q), v) == Rotate(q, v)
  {
    RotateIgnoresSign(q, v);
  }

  lemma Regroup(pivot: Vec, delta: Vec, rp: Vec, rt: Vec, rv: Vec)
    ensures Add(rv, Add(Sub(Add(pivot, delta), rp), rt)) == Add(Add(pivot, Sub(Add(rv, rt), rp)), delta)
  {
  }

  /** The new pose puts every point where the preview showed it: turned about
      the pivot and then moved. */
  lemma PreviewMovesPoints(current: Pose, preview: MoveRotatePreview, pivot: Vec, turn: Quat, next: Pose, v: Vec)
    requires Unit(current.rotation) && Normalized(preview.rotation) && !preview.IsIdentity()
    requires turn == QuaternionFromEuler(preview.rotation)
    requires ComposeMoveRotatePreview(current, preview, pivot, false) == Success(next)
    ensures Place(next, v) ==
            Add(Add(pivot, Rotate(turn, Sub(Place(current, v), pivot))), preview.translation)
  {
    ComposedPose(current, preview, pivot, turn, next);
    TurnedAboutPivot(current, preview.translation, pivot, turn, next, v);
  }

  lemma TurnedAboutPivot(current: Pose, delta: Vec, pivot: Vec, turn: Quat, next: Pose, v: Vec)
    requires Unit(turn) && Unit(current.rotation) && Unit(Multiply(turn, current.rotation))
    requires next.rotation == Canonical(Multiply(turn, current.rotation))
    requires next.translation == Add(Sub(Add(pivot, delta), Rotate(turn, pivot)), Rotate(turn, current.translation))
    ensures Place(next, v) == Add(Add(pivot, Rotate(turn, Sub(Place(current, v), pivot))), delta)
  {
    var rv := Rotate(current.rotation, v);
    CanonicalTurns(Multiply(turn, current.rotation), v);
    RotateComposes(turn, current.rotation, v);
    RotateSubtracts(turn, Place(current, v), pivot);
    RotateAdds(turn, rv, current.translation);
    Regroup(pivot, delta, Rotate(turn, pivot), Rotate(turn, current.translation), Rotate(turn, rv));
  }

  // -- the inverse -----------------------------------------------------------

  lemma TurnReaches(current: Pose, target: Pose, turn: Quat)
    requires Unit(current.rotation) && Unit(target.rotation) && Unit(turn)
    ensures Unit(TurnBetween(current, target))
    ensures Multiply(turn, current.rotation) == target.rotation <==> turn == TurnBetween(current, target)
  {
    var c, t := current.rotation, target.rotation;
    ConjugateInverts(c);
    UnitProduct(t, Conjugate(c));
    MultiplyAssociates(turn, c, Conjugate(c));
    MultiplyAssociates(t, Conjugate(c), c);
    MultiplyIdentity(turn);
    MultiplyIdentity(t);
  }

  /** The turn reaches the target's orientation exactly when it is, up to
      sign, the turn between the two. */
  lemma CanonicalTurnReaches(current: Pose, target: Pose, turn: Quat)
    requires ValidPose(current) && ValidPose(target) && Unit(turn)
    ensures var between := TurnBetween(current, target);
            Canonical(Multiply(turn, current.rotation)) == target.rotation <==>
              (turn == between || turn == Neg(between))
  {
    ConjugateInverts(turn);
    NegNeg(turn);
    NegNeg(TurnBetween(current, target));
    NegNeg(target.rotation);
    TurnReaches(current, target, turn);
    TurnReaches(current, target, Neg(turn));
    NegMultiplies(turn, current.rotation);
    NegNeg(Multiply(turn, current.rotation));
    UnitProduct(turn, current.rotation);
    CanonicalChoosesOne(Multiply(turn, current.rotation), target.rotation);
  }

  lemma TranslationReaches(current: Pose, target: Pose, pivot: Vec, delta: Vec, rp: Vec, rc: Vec)
    requires delta == Sub(Add(Sub(target.translation, pivot), rp), rc)
    ensures Add(Sub(Add(pivot, delta), rp), rc) == target.translation
  {
  }

  lemma SuppliedPreviewReaches(current: Pose, target: Pose, pivot: Vec, preview: MoveRotatePreview, turn: Quat)
    requires ValidPose(current) && ValidPose(target) && !preview.IsIdentity()
    requires IsPreviewBetween(current, target, pivot, preview) && turn == QuaternionFromEuler(preview.rotation)
    requires turn == TurnBetween(current, target) || turn == Neg(TurnBetween(current, target))
    ensures Normalized(preview.rotation)
    ensures ComposeMoveRotatePreview(current, preview, pivot, false) == Success(target)
  {
    var between := TurnBetween(current, target);
    EulerIsUnit(preview.rotation);
    TurnReaches(current, target, turn);
    RotateIgnoresSign(between, pivot);
    RotateIgnoresSign(between, current.translation);
    CanonicalTurnReaches(current, target, turn);
    TranslationReaches(current, target, pivot, preview.translation, Rotate(turn, pivot),
                       Rotate(turn, current.translation));
  }

  lemma ReachedIsSupplied(current: Pose, target: Pose, pivot: Vec, preview: MoveRotatePreview, turn: Quat)
    requires ValidPose(current) && ValidPose(target) && !preview.IsIdentity() && Normalized(preview.rotation)
    requires turn == QuaternionFromEuler(preview.rotation)
    requires ComposeMoveRotatePreview(current, preview, pivot, false) == Success(target)
    ensures turn == TurnBetween(current, target) || turn == Neg(TurnBetween(current, target))
  {
    ComposedPose(current, preview, pivot, turn, target);
    CanonicalTurnReaches(current, target, turn);
  }

  lemma ReachesExactlyWhenSupplied(current: Pose, target: Pose, pivot: Vec, preview: MoveRotatePreview, turn: Quat)
    requires ValidPose(current) && ValidPose(target) && !preview.IsIdentity() && Normalized(preview.rotation)
    requires IsPreviewBetween(current, target, pivot, preview) && turn == QuaternionFromEuler(preview.rotation)
    ensures ComposeMoveRotatePreview(current, preview, pivot, false) == Success(target) <==>
            (turn == TurnBetween(current, target) || turn == Neg(TurnBetween(current, target)))
  {
    if turn == TurnBetween(current, target) || turn == Neg(TurnBetween(current, target)) {
      SuppliedPreviewReaches(current, target, pivot, preview, turn);
    }
    if ComposeMoveRotatePreview(current, preview, pivot, false) == Success(target) {
      ReachedIsSupplied(current, target, pivot, preview, turn);
    }
  }

  lemma TurnIsUnit(current: Pose, target: Pose)
    requires Unit(current.rotation) && Unit(target.rotation)
    ensures Unit(TurnBetween(current, target))
  {
    ConjugateInverts(current.rotation);
    UnitProduct(target.rotation, Conjugate(current.rotation));
  }

  /** Composing the preview between two poses reaches the target exactly when
      its rotation fields suffice for the turn between them, whatever the
      pivot. */
  lemma PoseInverse(current: Pose, target: Pose, pivot: Vec, preview: MoveRotatePreview)
    requires ValidPose(current) && ValidPose(target)
    requires IsPreviewBetween(current, target, pivot, preview) && !preview.IsIdentity()
    ensures Normalized(preview.rotation)
    ensures ComposeMoveRotatePreview(current, preview, pivot, false) == Success(target) <==>
            FieldsSuffice(TurnBetween(current, target), preview.rotation)
  {
    TurnIsUnit(current, target);
    ReachesExactlyWhenSupplied(current, target, pivot, preview, QuaternionFromEuler(preview.rotation));
    FieldsRoundTrip(TurnBetween(current, target), preview.rotation);
  }

  /** The pose the panel's fields stand for. */
  function ToPose(translation: Vec, fields: Euler): Result<Pose, PlacementError>
    requires Normalized(fields)
  {
    EulerIsUnit(fields);
    RigidPose(translation, QuaternionFromEuler(fields))
  }

  lemma RebuiltPose(pose: Pose, fields: Euler, rotation: Quat)
    requires ValidPose(pose) && Normalized(fields) && rotation == QuaternionFromEuler(fields)
    ensures ToPose(pose.translation, fields) == Success(pose) <==>
            (rotation == pose.rotation || rotation == Neg(pose.rotation))
  {
    EulerIsUnit(fields);
    CanonicalChoosesOne(rotation, pose.rotation);
  }

  // -- committing the panel's fields -----------------------------------------

  function Dot(p: Quat, q: Quat): real {
    p.w * q.w + p.x * q.x + p.y * q.y + p.z * q.z
  }

  predicate Apart(a: real, b: real) {
    a - b > POSE_EPSILON || b - a > POSE_EPSILON
  }

  /** Alike within the tolerance, whatever the sign of the quaternions. */
  predicate PosesEquivalent(left: Pose, right: Pose) {
    var dot := Dot(left.rotation, right.rotation);
    && !Apart(left.translation.x, right.translation.x)
    && !Apart(left.translation.y, right.translation.y)
    && !Apart(left.translation.z, right.translation.z)
    && !Apart(1.0, if dot < 0.0 then -dot else dot)
  }

  function RejectGroundedChange(current: Pose, candidate: Pose, grounded: bool): Result<Pose, PlacementError> {
    if grounded && !PosesEquivalent(current, candidate) then Failure(GroundedComponent)
    else if grounded then Success(current)
    else Success(candidate)
  }

  /** What confirming the panel's fields makes of a pose. */
  function CommitFields(translation: Vec, fields: Euler, current: Pose, grounded: bool): Result<Pose, PlacementError>
    requires Normalized(fields)
  {
    var candidate :- ToPose(translation, fields);
    RejectGroundedChange(current, candidate, grounded)
  }

  /** The fields of a pose, read and put back, give the pose exactly when they
      suffice for its rotation. */
  lemma PanelRoundTrip(pose: Pose, fields: Euler)
    requires ValidPose(pose) && IsEulerFromQuaternion(pose.rotation, fields)
    ensures Normalized(fields)
    ensures ToPose(pose.translation, fields) == Success(pose) <==> FieldsSuffice(pose.rotation, fields)
  {
    RebuiltPose(pose, fields, QuaternionFromEuler(fields));
    FieldsRoundTrip(pose.rotation, fields);
  }
}
