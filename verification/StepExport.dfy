/**
  The faceted STEP writer: a data section of numbered entities, one open shell
  a body.
*/
module StepExport {
  import opened Results

  const MAX_EXPORT_TRIANGLES := 5_000_000

  datatype Coordinate = Number(value: real) | NotFinite

  datatype Point = Point(x: Coordinate, y: Coordinate, z: Coordinate)

  const ORIGIN := Point(Number(0.0), Number(0.0), Number(0.0))

  type Corners = s: seq<Point> | |s| == 3 witness [ORIGIN, ORIGIN, ORIGIN]

  datatype Triangle = Triangle(body: nat, vertices: Corners)

  datatype Entity =
    | Context(name: string, uses: seq<nat>)
    | CartesianPoint(at: Point)
    | PolyLoop(points: seq<nat>)
    | FaceOuterBound(ring: nat)
    | Face(bound: nat)
    | OpenShell(body: nat, faces: seq<nat>)
    | SurfaceModel(shells: seq<nat>)
    | SurfaceRepresentation(surface: nat, context: nat)
    | ShapeDefinition(shape: nat, representation: nat)

  datatype Line = Line(id: nat, entity: Entity)

  datatype ExportError = NoTriangles | TooManyTriangles(count: nat) | NonFiniteCoordinate

  // -- what is written -------------------------------------------------------

  /** The fixed entities, one to twelve. */
  function HeaderEntity(id: nat): Entity {
    match id
    case 1 => Context("APPLICATION_CONTEXT", [])
    case 2 => Context("PRODUCT_CONTEXT", [1])
    case 3 => Context("PRODUCT", [2])
    case 4 => Context("PRODUCT_DEFINITION_FORMATION", [3])
    case 5 => Context("PRODUCT_DEFINITION_CONTEXT", [1])
    case 6 => Context("PRODUCT_DEFINITION", [4, 5])
    case 7 => Context("PRODUCT_DEFINITION_SHAPE", [6])
    case 8 => Context("LENGTH_UNIT", [])
    case 9 => Context("PLANE_ANGLE_UNIT", [])
    case 10 => Context("SOLID_ANGLE_UNIT", [])
    case 11 => Context("UNCERTAINTY_MEASURE_WITH_UNIT", [8])
    case _ => Context("GEOMETRIC_REPRESENTATION_CONTEXT", [11, 8, 9, 10])
  }

  function HeaderLines(): (lines: seq<Line>)
    ensures |lines| == 12
    ensures forall k :: 0 <= k < 12 ==> lines[k] == Line(k + 1, HeaderEntity(k + 1))
  {
    seq(12, k requires 0 <= k < 12 => Line(k + 1, HeaderEntity(k + 1)))
  }

  /** The entities of the `i`th triangle: three points, the loop, its bound and
      the face. */
  function TriangleLines(i: nat, t: Triangle): (lines: seq<Line>)
    ensures |lines| == 6
  {
    var first := 13 + 6 * i;
    [Line(first, CartesianPoint(t.vertices[0])),
     Line(first + 1, CartesianPoint(t.vertices[1])),
     Line(first + 2, CartesianPoint(t.vertices[2])),
     Line(first + 3, PolyLoop([first, first + 1, first + 2])),
     Line(first + 4, FaceOuterBound(first + 3)),
     Line(first + 5, Face(first + 4))]
  }

  function FaceLines(ts: seq<Triangle>): (lines: seq<Line>)
    ensures |lines| == 6 * |ts|
  {
    if ts == [] then [] else FaceLines(ts[..|ts| - 1]) + TriangleLines(|ts| - 1, ts[|ts| - 1])
  }

  /** One entry of the map from bodies to their faces. */
  datatype Shelf = Shelf(body: nat, faces: seq<nat>)

  /** The map, kept in order of the body, with one more face. */
  function Shelve(shelves: seq<Shelf>, body: nat, face: nat): seq<Shelf> {
    if shelves == [] || body < shelves[0].body then [Shelf(body, [face])] + shelves
    else if shelves[0].body == body then [Shelf(body, shelves[0].faces + [face])] + shelves[1..]
    else [shelves[0]] + Shelve(shelves[1..], body, face)
  }

  function Shelves(ts: seq<Triangle>): seq<Shelf> {
    if ts == [] then []
    else Shelve(Shelves(ts[..|ts| - 1]), ts[|ts| - 1].body, 12 + 6 * |ts|)
  }

  function ShellLines(shelves: seq<Shelf>, first: nat): (lines: seq<Line>)
    ensures |lines| == |shelves|
    ensures forall k :: 0 <= k < |shelves| ==> lines[k] == Line(first + k, OpenShell(shelves[k].body, shelves[k].faces))
  {
    seq(|shelves|, k requires 0 <= k < |shelves| => Line(first + k, OpenShell(shelves[k].body, shelves[k].faces)))
  }

  function Ids(first: nat, n: nat): (ids: seq<nat>)
    ensures |ids| == n && forall k :: 0 <= k < n ==> ids[k] == first + k
  {
    seq(n, k requires 0 <= k < n => first + k)
  }

  function ClosingLines(first: nat, shells: seq<nat>): (lines: seq<Line>)
    ensures |lines| == 3
  {
    [Line(first, SurfaceModel(shells)),
     Line(first + 1, SurfaceRepresentation(first, 12)),
     Line(first + 2, ShapeDefinition(7, first + 1))]
  }

  function DataSection(ts: seq<Triangle>): seq<Line> {
    var shelves := Shelves(ts);
    var shells := 13 + 6 * |ts|;
    HeaderLines() + FaceLines(ts) + ShellLines(shelves, shells)
      + ClosingLines(shells + |shelves|, Ids(shells, |shelves|))
  }

  predicate FinitePoint(p: Point) {
    p.x.Number? && p.y.Number? && p.z.Number?
  }

  predicate FiniteTriangle(t: Triangle) {
    forall k :: 0 <= k < 3 ==> FinitePoint(t.vertices[k])
  }

  function ValidateTriangles(ts: seq<Triangle>): Option<ExportError> {
    if |ts| == 0 then Some(NoTriangles)
    else if |ts| > MAX_EXPORT_TRIANGLES then Some(TooManyTriangles(|ts|))
    else if exists i :: 0 <= i < |ts| && !FiniteTriangle(ts[i]) then Some(NonFiniteCoordinate)
    else None
  }

  // -- the writer ------------------------------------------------------------

  method WriteTriangle(output: seq<Line>, first: nat, t: Triangle) returns (longer: seq<Line>, next: nat)
    ensures forall i: nat :: first == 13 + 6 * i ==> longer == output + TriangleLines(i, t)
    ensures next == first + 6
  {
    longer, next := output, first;
    var points: seq<nat> := [];
    for slot := 0 to 3
      invariant next == first + slot
      invariant points == Ids(first, slot)
      invariant longer == output + seq(slot, k requires 0 <= k < slot => Line(first + k, CartesianPoint(t.vertices[k])))
    {
      longer := longer + [Line(next, CartesianPoint(t.vertices[slot]))];
      points := points + [next];
      next := next + 1;
    }
    var ring, bound, face := next, next + 1, next + 2;
    next := next + 3;
    longer := longer + [Line(ring, PolyLoop(points))];
    longer := longer + [Line(bound, FaceOuterBound(ring))];
    longer := longer + [Line(face, Face(bound))];
    assert points == [first, first + 1, first + 2];
  }

  /** Some corner of this triangle has a coordinate that is not a number. */
  predicate HasNotFinite(t: Triangle) {
    exists k :: 0 <= k < 3 && !(t.vertices[k].x.Number? && t.vertices[k].y.Number? && t.vertices[k].z.Number?)
  }

  /** There is nothing to write, too much of it, or a coordinate that is not a
      number, looked for in that order. */
  lemma RefusedExactly(ts: seq<Triangle>)
    ensures ValidateTriangles(ts) == Some(NoTriangles) <==> ts == []
    ensures forall n :: ValidateTriangles(ts) == Some(TooManyTriangles(n)) <==> |ts| > 5_000_000 && n == |ts|
    ensures ValidateTriangles(ts) == Some(NonFiniteCoordinate) <==>
            0 < |ts| <= 5_000_000 && exists i :: 0 <= i < |ts| && HasNotFinite(ts[i])
  {
    assert forall i :: 0 <= i < |ts| ==> (FiniteTriangle(ts[i]) <==> !HasNotFinite(ts[i]));
  }

  lemma OneMoreTriangle(ts: seq<Triangle>, i: nat)
    requires i < |ts|
    ensures FaceLines(ts[..i + 1]) == FaceLines(ts[..i]) + TriangleLines(i, ts[i])
    ensures Shelves(ts[..i + 1]) == Shelve(Shelves(ts[..i]), ts[i].body, 18 + 6 * i)
  {
    assert ts[..i + 1][..i] == ts[..i];
  }

  method WriteFacetedStep(ts: seq<Triangle>) returns (r: Result<seq<Line>, ExportError>)
    ensures r == match ValidateTriangles(ts) case Some(error) => Failure(error) case None => Success(DataSection(ts))
    ensures r.Success? <==>
            0 < |ts| <= 5_000_000 && forall i :: 0 <= i < |ts| ==> !HasNotFinite(ts[i])
  {
    RefusedExactly(ts);
    var refusal := ValidateTriangles(ts);
    if refusal.Some? {
      return Failure(refusal.value);
    }
    var section := WriteDataSection(ts);
    r := Success(section);
  }

  method WriteDataSection(ts: seq<Triangle>) returns (section: seq<Line>)
    ensures section == DataSection(ts)
  {
    var output := HeaderLines();
    var next: nat := 13;
    var bodies: seq<Shelf> := [];
    for i := 0 to |ts|
      invariant next == 13 + 6 * i
      invariant output == HeaderLines() + FaceLines(ts[..i])
      invariant bodies == Shelves(ts[..i])
    {
      OneMoreTriangle(ts, i);
      output, next := WriteTriangle(output, next, ts[i]);
      bodies := Shelve(bodies, ts[i].body, next - 1);
    }
    assert ts[..|ts|] == ts;
    var written, shells := WriteShells(output, next, bodies);
    section := written + ClosingLines(next + |bodies|, shells);
  }

  method WriteShells(output: seq<Line>, first: nat, bodies: seq<Shelf>) returns (longer: seq<Line>, shells: seq<nat>)
    ensures longer == output + ShellLines(bodies, first)
    ensures shells == Ids(first, |bodies|)
  {
    longer, shells := output, [];
    for k := 0 to |bodies|
      invariant shells == Ids(first, k)
      invariant longer == output + ShellLines(bodies, first)[..k]
    {
      shells := shells + [first + k];
      longer := longer + [Line(first + k, OpenShell(bodies[k].body, bodies[k].faces))];
    }
    assert ShellLines(bodies, first)[..|bodies|] == ShellLines(bodies, first);
  }
}
