/** Laying each new component beside the ones already placed. */
module Insertion {
  import opened Results
  import opened Quaternions
  import opened Assembly
  import opened ComponentBounds

  /** The rightmost side of the boxes taken, folded from the left. */
  function RightEdge(occupied: seq<Box>): real
    requires |occupied| > 0
  {
    var last := occupied[|occupied| - 1].max.x;
    if |occupied| == 1 then last
    else
      var before := RightEdge(occupied[..|occupied| - 1]);
      if last > before then last else before
  }

  function TargetX(occupied: seq<Box>, clearance: real): real {
    if |occupied| == 0 then 0.0
    else if RightEdge(occupied) + clearance > 0.0 then RightEdge(occupied) + clearance
    else 0.0
  }

  predicate AllSolid(occupied: seq<Box>) {
    forall i :: 0 <= i < |occupied| ==> Solid(occupied[i])
  }

  function DeterministicInitialPose(local: Box, occupied: seq<Box>, clearance: real): Result<Pose, PlacementError> {
    if !Solid(local) then Failure(InvalidBounds)
    else if clearance < 0.0 then Failure(InvalidClearance)
    else if !AllSolid(occupied) then Failure(InvalidBounds)
    else
      assert Unit(IDENTITY);
      RigidPose(Vec(TargetX(occupied, clearance) - local.min.x, -local.min.y, -local.min.z), IDENTITY)
  }

  // -- the edge is a maximum -------------------------------------------------

  lemma {:induction false} RightEdgeIsMaximum(occupied: seq<Box>) returns (at: nat)
    requires |occupied| > 0
    ensures at < |occupied| && occupied[at].max.x == RightEdge(occupied)
    ensures forall i :: 0 <= i < |occupied| ==> occupied[i].max.x <= RightEdge(occupied)
  {
    var n := |occupied| - 1;
    at := n;
    if n > 0 {
      var before := RightEdgeIsMaximum(occupied[..n]);
      if occupied[n].max.x <= RightEdge(occupied[..n]) {
        at := before;
      }
    }
  }

  lemma HeldInBoth(left: seq<Box>, right: seq<Box>, i: nat) returns (j: nat)
    requires i < |left| && multiset(left) == multiset(right)
    ensures j < |right| && right[j] == left[i]
  {
    assert left[i] in multiset(right);
    j :| 0 <= j < |right| && right[j] == left[i];
  }

  lemma SolidAsASet(left: seq<Box>, right: seq<Box>)
    requires multiset(left) == multiset(right) && AllSolid(left)
    ensures AllSolid(right)
  {
    forall i | 0 <= i < |right| ensures Solid(right[i]) {
      var j := HeldInBoth(right, left, i);
    }
  }

  lemma SameEdge(left: seq<Box>, right: seq<Box>)
    requires multiset(left) == multiset(right) && |left| > 0 && |right| > 0
    ensures RightEdge(left) == RightEdge(right)
  {
    var i := RightEdgeIsMaximum(left);
    var j := RightEdgeIsMaximum(right);
    var k := HeldInBoth(left, right, i);
    var l := HeldInBoth(right, left, j);
  }

  /** The order in which the boxes taken are listed does not matter, refusals
      included. */
  lemma PoseIgnoresOrder(local: Box, left: seq<Box>, right: seq<Box>, clearance: real)
    requires multiset(left) == multiset(right)
    ensures DeterministicInitialPose(local, left, clearance) == DeterministicInitialPose(local, right, clearance)
  {
    assert |left| == |multiset(left)| == |multiset(right)| == |right|;
    if AllSolid(left) {
      SolidAsASet(left, right);
    }
    if AllSolid(right) {
      SolidAsASet(right, left);
    }
    if |left| > 0 {
      SameEdge(left, right);
    }
  }

  // -- an unturned box -------------------------------------------------------

  function Moved(b: Box, t: Vec): Box {
    Box(Add(b.min, t), Add(b.max, t))
  }

  lemma UnturnedCorner(b: Box, t: Vec, i: nat)
    ensures PlacedCorner(b, Pose(t, IDENTITY), i) == Add(Corner(b, i), t)
  {
    RotateIdentity(Corner(b, i));
  }

  lemma MovedSide(b: Box, t: Vec, side: Side, w: Box, i: nat, j: nat, at: Vec, inside: Vec)
    requires Solid(b) && OnSide(w, at, side) && Inside(w, inside) && j == (if side.high then 7 else 0)
    requires at == Add(Corner(b, i), t) && inside == Add(Corner(b, j), t)
    ensures var m := Moved(b, t);
            Along(if side.high then w.max else w.min, side.axis) == Along(if side.high then m.max else m.min, side.axis)
  {
    InsideAlong(w, inside);
    CornerInside(b, i);
    InsideAlong(b, Corner(b, i));
  }

  lemma UnturnedSide(b: Box, t: Vec, side: Side)
    requires Solid(b)
    ensures var w, m := Hull(b, Pose(t, IDENTITY), 8), Moved(b, t);
            Along(if side.high then w.max else w.min, side.axis) == Along(if side.high then m.max else m.min, side.axis)
  {
    var p := Pose(t, IDENTITY);
    var i := HullAttained(b, p, 8, side);
    var j := if side.high then 7 else 0;
    UnturnedCorner(b, t, i);
    UnturnedCorner(b, t, j);
    HullHolds(b, p, 8, j);
    MovedSide(b, t, side, Hull(b, p, 8), i, j, PlacedCorner(b, p, i), PlacedCorner(b, p, j));
  }

  lemma UnturnedBounds(b: Box, t: Vec)
    requires Solid(b)
    ensures ComponentWorldBounds(b, Pose(t, IDENTITY)) == Success(Moved(b, t))
  {
    UnturnedSide(b, t, Side(X, false));
    UnturnedSide(b, t, Side(Y, false));
    UnturnedSide(b, t, Side(Z, false));
    UnturnedSide(b, t, Side(X, true));
    UnturnedSide(b, t, Side(Y, true));
    UnturnedSide(b, t, Side(Z, true));
  }

  lemma InsertedBounds(local: Box, occupied: seq<Box>, clearance: real, pose: Pose)
    requires DeterministicInitialPose(local, occupied, clearance) == Success(pose)
    ensures Solid(local) && clearance >= 0.0 && AllSolid(occupied)
    ensures pose == Pose(Vec(TargetX(occupied, clearance) - local.min.x, -local.min.y, -local.min.z), IDENTITY)
    ensures ComponentWorldBounds(local, pose) == Success(Moved(local, pose.translation))
  {
    UnturnedBounds(local, pose.translation);
  }

  /** The new box stands clear of every box taken, on the ground planes, and
      no further along than the clearance or the origin asks. */
  lemma InsertionClears(local: Box, occupied: seq<Box>, clearance: real, pose: Pose, world: Box)
    requires DeterministicInitialPose(local, occupied, clearance) == Success(pose)
    requires ComponentWorldBounds(local, pose) == Success(world)
    ensures Solid(world) && world.min.y == 0.0 && world.min.z == 0.0 && world.min.x >= 0.0
    ensures forall i :: 0 <= i < |occupied| ==> world.min.x >= occupied[i].max.x + clearance
    ensures world.min.x == 0.0 || exists i :: 0 <= i < |occupied| && world.min.x == occupied[i].max.x + clearance
  {
    InsertedBounds(local, occupied, clearance, pose);
    if |occupied| > 0 {
      var at := RightEdgeIsMaximum(occupied);
      assert world.min.x == 0.0 || world.min.x == occupied[at].max.x + clearance;
    }
  }

  // -- whole sequences of insertions -----------------------------------------

  datatype Placed = Placed(local: Box, clearance: real, listed: seq<Box>, pose: Pose, world: Box)

  function Worlds(run: seq<Placed>): (worlds: seq<Box>)
    ensures |worlds| == |run|
    ensures forall i :: 0 <= i < |run| ==> worlds[i] == run[i].world
  {
    if run == [] then [] else Worlds(run[..|run| - 1]) + [run[|run| - 1].world]
  }

  /** Each insertion saw the boxes before it, listed in some order. */
  ghost predicate IsRun(run: seq<Placed>) {
    forall k :: 0 <= k < |run| ==> IsInsertion(run, k)
  }

  ghost predicate IsInsertion(run: seq<Placed>, k: nat)
    requires k < |run|
  {
    && multiset(run[k].listed) == multiset(Worlds(run[..k]))
    && DeterministicInitialPose(run[k].local, run[k].listed, run[k].clearance) == Success(run[k].pose)
    && ComponentWorldBounds(run[k].local, run[k].pose) == Success(run[k].world)
  }

  lemma StepClears(run: seq<Placed>, k: nat, i: nat)
    requires IsRun(run) && i < k < |run|
    ensures run[k].world.min.x >= run[i].world.max.x + run[k].clearance && run[k].clearance >= 0.0
  {
    assert IsInsertion(run, k);
    InsertedBounds(run[k].local, run[k].listed, run[k].clearance, run[k].pose);
    InsertionClears(run[k].local, run[k].listed, run[k].clearance, run[k].pose, run[k].world);
    var j := HeldInBoth(Worlds(run[..k]), run[k].listed, i);
  }

  lemma StepStandsOnGround(run: seq<Placed>, k: nat)
    requires IsRun(run) && k < |run|
    ensures var w := run[k].world; Solid(w) && w.min.x >= 0.0 && w.min.y == 0.0 && w.min.z == 0.0
  {
    assert IsInsertion(run, k);
    InsertionClears(run[k].local, run[k].listed, run[k].clearance, run[k].pose, run[k].world);
  }

  lemma FirstAtOrigin(run: seq<Placed>)
    requires IsRun(run) && |run| > 0
    ensures run[0].world.min.x == 0.0
  {
    assert IsInsertion(run, 0);
    assert |multiset(run[0].listed)| == 0;
    assert run[0].listed == [];
    InsertionClears(run[0].local, run[0].listed, run[0].clearance, run[0].pose, run[0].world);
  }

  /** From nothing, the components stand in a row from the origin in the order
      they came, each exactly its own clearance past the one before it, and
      at least that far from every other; so no two boxes ever meet. */
  lemma RowOfComponents(run: seq<Placed>, i: nat, k: nat)
    requires IsRun(run) && i < k < |run|
    ensures run[0].world.min.x == 0.0
    ensures run[k].world.min.x >= run[i].world.max.x + run[k].clearance && run[k].clearance >= 0.0
    ensures k == i + 1 ==> run[k].world.min.x == run[i].world.max.x + run[k].clearance
  {
    FirstAtOrigin(run);
    StepClears(run, k, i);
    if k == i + 1 {
      NextToNeighbour(run, i);
    }
  }

  lemma NextToNeighbour(run: seq<Placed>, i: nat)
    requires IsRun(run) && i + 1 < |run|
    ensures run[i + 1].world.min.x == run[i].world.max.x + run[i + 1].clearance
  {
    var k := i + 1;
    assert IsInsertion(run, k);
    StepClears(run, k, i);
    StepStandsOnGround(run, i);
    var p := run[k];
    InsertionClears(p.local, p.listed, p.clearance, p.pose, p.world);
    var at :| 0 <= at < |p.listed| && p.world.min.x == p.listed[at].max.x + p.clearance;
    var j := HeldInBoth(p.listed, Worlds(run[..k]), at);
    if j < i {
      StepClears(run, i, j);
    }
  }
}
