/** Reading back what the STEP writer wrote. */
module StepExportProperties {
  import opened Results
  import opened StepExport

  // -- where each line stands ------------------------------------------------

  lemma {:induction false} FaceLineAt(ts: seq<Triangle>, i: nat, j: nat)
    requires i < |ts| && j < 6
    ensures FaceLines(ts)[6 * i + j] == TriangleLines(i, ts[i])[j]
  {
    if i < |ts| - 1 {
      FaceLineAt(ts[..|ts| - 1], i, j);
    }
  }

  lemma {:induction false} FaceLineIds(ts: seq<Triangle>)
    ensures forall k :: 0 <= k < 6 * |ts| ==> FaceLines(ts)[k].id == 13 + k
  {
    if ts != [] {
      FaceLineIds(ts[..|ts| - 1]);
    }
  }

  ghost predicate Numbered(lines: seq<Line>, first: nat) {
    forall k :: 0 <= k < |lines| ==> lines[k].id == first + k
  }

  lemma NumberedAppend(left: seq<Line>, right: seq<Line>, first: nat)
    requires Numbered(left, first) && Numbered(right, first + |left|)
    ensures Numbered(left + right, first)
  {
  }

  lemma HeaderNumbered()
    ensures Numbered(HeaderLines(), 1)
  {
  }

  lemma ClosingNumbered(first: nat, shells: seq<nat>)
    ensures Numbered(ClosingLines(first, shells), first)
  {
  }

  /** The entities are numbered from one without a gap or a repeat. */
  lemma NumberedInOrder(ts: seq<Triangle>)
    ensures Numbered(DataSection(ts), 1)
    ensures |DataSection(ts)| == 15 + 6 * |ts| + |Shelves(ts)|
  {
    var shelves, shells := Shelves(ts), 13 + 6 * |ts|;
    var b, c := FaceLines(ts), ShellLines(shelves, shells);
    HeaderNumbered();
    FaceLineIds(ts);
    ClosingNumbered(shells + |shelves|, Ids(shells, |shelves|));
    NumberedAppend(HeaderLines(), b, 1);
    NumberedAppend(HeaderLines() + b, c, 1);
    NumberedAppend(HeaderLines() + b + c, ClosingLines(shells + |shelves|, Ids(shells, |shelves|)), 1);
  }

  lemma HeaderAt(ts: seq<Triangle>, k: nat)
    requires k < 12
    ensures k < |DataSection(ts)| && DataSection(ts)[k] == HeaderLines()[k]
  {
  }

  lemma TriangleAt(ts: seq<Triangle>, i: nat, j: nat)
    requires i < |ts| && j < 6
    ensures 12 + 6 * i + j < |DataSection(ts)| && DataSection(ts)[12 + 6 * i + j] == TriangleLines(i, ts[i])[j]
  {
    FaceLineAt(ts, i, j);
    var b := FaceLines(ts);
    assert (HeaderLines() + b)[12 + 6 * i + j] == b[6 * i + j];
  }

  lemma ShellAt(ts: seq<Triangle>, k: nat)
    requires k < |Shelves(ts)|
    ensures var at := 12 + 6 * |ts| + k;
            at < |DataSection(ts)|
            && DataSection(ts)[at] == Line(at + 1, OpenShell(Shelves(ts)[k].body, Shelves(ts)[k].faces))
  {
  }

  lemma AfterParts(a: seq<Line>, b: seq<Line>, c: seq<Line>, d: seq<Line>, all: seq<Line>, at: nat, j: nat)
    requires all == a + b + c + d && j < |d| && at == |a| + |b| + |c| + j
    ensures at < |all| && all[at] == d[j]
  {
  }

  lemma Parts(ts: seq<Triangle>, c: seq<Line>, d: seq<Line>)
    requires c == ShellLines(Shelves(ts), 13 + 6 * |ts|)
    requires d == ClosingLines(13 + 6 * |ts| + |Shelves(ts)|, Ids(13 + 6 * |ts|, |Shelves(ts)|))
    ensures DataSection(ts) == HeaderLines() + FaceLines(ts) + c + d
    ensures |HeaderLines()| + |FaceLines(ts)| + |c| == 12 + 6 * |ts| + |Shelves(ts)| && |d| == 3
  {
  }

  lemma ClosingLineAt(ts: seq<Triangle>, all: seq<Line>, d: seq<Line>, at: nat, j: nat)
    requires all == DataSection(ts) && j < 3 && at == 12 + 6 * |ts| + |Shelves(ts)| + j
    requires d == ClosingLines(13 + 6 * |ts| + |Shelves(ts)|, Ids(13 + 6 * |ts|, |Shelves(ts)|))
    ensures at < |all| && all[at] == d[j]
  {
    var c := ShellLines(Shelves(ts), 13 + 6 * |ts|);
    Parts(ts, c, d);
    AfterParts(HeaderLines(), FaceLines(ts), c, d, all, at, j);
  }

  lemma ClosingAt(ts: seq<Triangle>, j: nat, n: nat, shells: nat)
    requires j < 3 && n == |Shelves(ts)| && shells == 13 + 6 * |ts|
    ensures shells - 1 + n + j < |DataSection(ts)|
    ensures DataSection(ts)[shells - 1 + n + j] == ClosingLines(shells + n, Ids(shells, n))[j]
  {
    ClosingLineAt(ts, DataSection(ts), ClosingLines(shells + n, Ids(shells, n)), shells - 1 + n + j, j);
  }

  // -- the shelves -----------------------------------------------------------

  predicate Ascending(shelves: seq<Shelf>) {
    forall i, j :: 0 <= i < j < |shelves| ==> shelves[i].body < shelves[j].body
  }

  /** The faces shelved under a body. */
  function FacesUnder(shelves: seq<Shelf>, body: nat): seq<nat> {
    if shelves == [] then []
    else if shelves[0].body == body then shelves[0].faces
    else FacesUnder(shelves[1..], body)
  }

  lemma AscendingAfter(first: Shelf, rest: seq<Shelf>)
    requires Ascending(rest) && (rest != [] ==> first.body < rest[0].body)
    ensures Ascending([first] + rest)
  {
    var s := [first] + rest;
    forall i, j | 0 <= i < j < |s| ensures s[i].body < s[j].body {
      assert i > 0 ==> s[i] == rest[i - 1];
      assert s[j] == rest[j - 1];
    }
  }

  lemma {:induction false} ShelveKeepsOrder(shelves: seq<Shelf>, body: nat, face: nat)
    requires Ascending(shelves)
    ensures var s := Shelve(shelves, body, face);
            && Ascending(s) && |s| > 0
            && s[0].body == (if shelves == [] || body < shelves[0].body then body else shelves[0].body)
  {
    if shelves != [] && shelves[0].body < body {
      ShelveKeepsOrder(shelves[1..], body, face);
      var s, rest := Shelve(shelves, body, face), Shelve(shelves[1..], body, face);
      assert s == [shelves[0]] + rest;
      assert |shelves| > 1 ==> shelves[0].body < shelves[1].body;
      AscendingAfter(shelves[0], rest);
    }
  }

  lemma {:induction false} NotBefore(shelves: seq<Shelf>, body: nat)
    requires Ascending(shelves) && (shelves == [] || body < shelves[0].body)
    ensures FacesUnder(shelves, body) == []
  {
    if shelves != [] {
      NotBefore(shelves[1..], body);
    }
  }

  lemma {:induction false} ShelveAdds(shelves: seq<Shelf>, body: nat, face: nat, other: nat)
    requires Ascending(shelves)
    ensures FacesUnder(Shelve(shelves, body, face), other) ==
            FacesUnder(shelves, other) + (if other == body then [face] else [])
  {
    if shelves == [] || body < shelves[0].body {
      NotBefore(shelves, body);
    } else if shelves[0].body < body {
      ShelveAdds(shelves[1..], body, face, other);
    }
  }

  /** The ids of a body's faces, in order. */
  function FaceIdsOf(ts: seq<Triangle>, body: nat): seq<nat> {
    if ts == [] then []
    else FaceIdsOf(ts[..|ts| - 1], body) + (if ts[|ts| - 1].body == body then [12 + 6 * |ts|] else [])
  }

  lemma {:induction false} ShelvesHold(ts: seq<Triangle>, body: nat)
    ensures Ascending(Shelves(ts))
    ensures FacesUnder(Shelves(ts), body) == FaceIdsOf(ts, body)
  {
    if ts != [] {
      var n := |ts| - 1;
      ShelvesHold(ts[..n], body);
      ShelveKeepsOrder(Shelves(ts[..n]), ts[n].body, 12 + 6 * |ts|);
      ShelveAdds(Shelves(ts[..n]), ts[n].body, 12 + 6 * |ts|, body);
    }
  }

  lemma {:induction false} UnderIsAt(shelves: seq<Shelf>, k: nat)
    requires Ascending(shelves) && k < |shelves|
    ensures FacesUnder(shelves, shelves[k].body) == shelves[k].faces
  {
    if k > 0 {
      assert shelves[0].body < shelves[k].body;
      UnderIsAt(shelves[1..], k - 1);
    }
  }

  lemma ShelfIs(ts: seq<Triangle>, k: nat)
    requires k < |Shelves(ts)|
    ensures Shelves(ts)[k].faces == FaceIdsOf(ts, Shelves(ts)[k].body)
  {
    ShelvesHold(ts, Shelves(ts)[k].body);
    UnderIsAt(Shelves(ts), k);
  }

  // -- references ------------------------------------------------------------

  function Uses(e: Entity): seq<nat> {
    match e
    case Context(_, uses) => uses
    case CartesianPoint(_) => []
    case PolyLoop(points) => points
    case FaceOuterBound(ring) => [ring]
    case Face(bound) => [bound]
    case OpenShell(_, faces) => faces
    case SurfaceModel(shells) => shells
    case SurfaceRepresentation(surface, context) => [surface, context]
    case ShapeDefinition(shape, representation) => [shape, representation]
  }

  /** A line uses only entities defined on lines before it. */
  ghost predicate UsesEarlier(line: Line) {
    forall r :: 0 <= r < |Uses(line.entity)| ==> 1 <= Uses(line.entity)[r] < line.id
  }

  lemma {:induction false} FaceIdsEarlier(ts: seq<Triangle>, body: nat)
    ensures forall r :: 0 <= r < |FaceIdsOf(ts, body)| ==> 1 <= FaceIdsOf(ts, body)[r] < 13 + 6 * |ts|
  {
    if ts != [] {
      FaceIdsEarlier(ts[..|ts| - 1], body);
    }
  }

  lemma ShellLineUsesEarlier(line: Line, body: nat, faces: seq<nat>)
    requires line.entity == OpenShell(body, faces) && forall r :: 0 <= r < |faces| ==> 1 <= faces[r] < line.id
    ensures UsesEarlier(line)
  {
  }

  lemma ShellUsesEarlier(ts: seq<Triangle>, k: nat)
    requires k < |Shelves(ts)|
    ensures 12 + 6 * |ts| + k < |DataSection(ts)| && UsesEarlier(DataSection(ts)[12 + 6 * |ts| + k])
  {
    var shelf := Shelves(ts)[k];
    ShellAt(ts, k);
    ShelfIs(ts, k);
    FaceIdsEarlier(ts, shelf.body);
    ShellLineUsesEarlier(DataSection(ts)[12 + 6 * |ts| + k], shelf.body, shelf.faces);
  }

  lemma ClosingLineUsesEarlier(first: nat, shells: seq<nat>, j: nat)
    requires j < 3 && first >= 13 && forall r :: 0 <= r < |shells| ==> 1 <= shells[r] < first
    ensures UsesEarlier(ClosingLines(first, shells)[j])
  {
  }

  lemma TriangleLineUsesEarlier(ts: seq<Triangle>, k: nat)
    requires 12 <= k < 12 + 6 * |ts|
    ensures k < |DataSection(ts)| && UsesEarlier(DataSection(ts)[k])
  {
    var i, j := (k - 12) / 6, (k - 12) % 6;
    TriangleAt(ts, i, j);
    TriangleUsesEarlier(i, ts[i], j);
  }

  /** Every reference names an entity already defined. */
  lemma ReferencesAreDefined(ts: seq<Triangle>, k: nat)
    requires k < |DataSection(ts)|
    ensures UsesEarlier(DataSection(ts)[k])
  {
    NumberedInOrder(ts);
    if k < 12 {
      HeaderAt(ts, k);
      HeaderUsesEarlier(k);
    } else if k < 12 + 6 * |ts| {
      TriangleLineUsesEarlier(ts, k);
    } else if k < 12 + 6 * |ts| + |Shelves(ts)| {
      ShellUsesEarlier(ts, k - 12 - 6 * |ts|);
    } else {
      var n, first := |Shelves(ts)|, 13 + 6 * |ts|;
      ClosingAt(ts, k + 1 - first - n, n, first);
      ClosingLineUsesEarlier(first + n, Ids(first, n), k + 1 - first - n);
    }
  }

  lemma HeaderUsesEarlier(k: nat)
    requires k < 12
    ensures UsesEarlier(HeaderLines()[k])
  {
    assert HeaderLines()[k] == Line(k + 1, HeaderEntity(k + 1));
  }

  lemma TriangleUsesEarlier(i: nat, t: Triangle, j: nat)
    requires j < 6
    ensures UsesEarlier(TriangleLines(i, t)[j])
  {
  }

  // -- the reader ------------------------------------------------------------

  function Find(lines: seq<Line>, id: nat): Option<Entity> {
    if lines == [] then None
    else if lines[0].id == id then Some(lines[0].entity)
    else Find(lines[1..], id)
  }

  function ReadPoints(lines: seq<Line>, ids: seq<nat>): Option<seq<Point>> {
    if ids == [] then Some([])
    else
      match (ReadPoints(lines, ids[..|ids| - 1]), Find(lines, ids[|ids| - 1]))
      case (Some(before), Some(CartesianPoint(at))) => Some(before + [at])
      case _ => None
  }

  function ReadFace(lines: seq<Line>, id: nat): Option<seq<Point>> {
    match Find(lines, id)
    case Some(Face(bound)) =>
      (match Find(lines, bound)
       case Some(FaceOuterBound(ring)) =>
         (match Find(lines, ring)
          case Some(PolyLoop(points)) => ReadPoints(lines, points)
          case _ => None)
       case _ => None)
    case _ => None
  }

  function ReadFaces(lines: seq<Line>, ids: seq<nat>): Option<seq<seq<Point>>> {
    if ids == [] then Some([])
    else
      match (ReadFaces(lines, ids[..|ids| - 1]), ReadFace(lines, ids[|ids| - 1]))
      case (Some(before), Some(face)) => Some(before + [face])
      case _ => None
  }

  datatype Shell = Shell(body: nat, faces: seq<seq<Point>>)

  function ReadShells(lines: seq<Line>, ids: seq<nat>): Option<seq<Shell>> {
    if ids == [] then Some([])
    else
      match (ReadShells(lines, ids[..|ids| - 1]), Find(lines, ids[|ids| - 1]))
      case (Some(before), Some(OpenShell(body, ids))) =>
        (match ReadFaces(lines, ids)
         case Some(faces) => Some(before + [Shell(body, faces)])
         case None => None)
      case _ => None
  }

  /** What an entity of this name refers to. */
  function ReadNamed(lines: seq<Line>, id: nat, name: string): Option<seq<nat>> {
    match Find(lines, id)
    case Some(Context(found, uses)) => if found == name then Some(uses) else None
    case _ => None
  }

  /** An entity of the first name that refers to one of the second alone. */
  predicate RefersTo(lines: seq<Line>, id: nat, name: string, other: string) {
    var uses := ReadNamed(lines, id, name);
    uses.Some? && |uses.value| == 1 && ReadNamed(lines, uses.value[0], other).Some?
  }

  /** A product's shape: of a definition, of a formation of a product in a
      product context, in a definition context, both of an application. */
  predicate IsProductShape(lines: seq<Line>, id: nat) {
    && RefersTo(lines, id, "PRODUCT_DEFINITION_SHAPE", "PRODUCT_DEFINITION")
    && var definition := ReadNamed(lines, id, "PRODUCT_DEFINITION_SHAPE").value[0];
       var parts := ReadNamed(lines, definition, "PRODUCT_DEFINITION").value;
       && |parts| == 2
       && RefersTo(lines, parts[0], "PRODUCT_DEFINITION_FORMATION", "PRODUCT")
       && RefersTo(lines, parts[1], "PRODUCT_DEFINITION_CONTEXT", "APPLICATION_CONTEXT")
       && var product := ReadNamed(lines, parts[0], "PRODUCT_DEFINITION_FORMATION").value[0];
          RefersTo(lines, product, "PRODUCT", "PRODUCT_CONTEXT") &&
          RefersTo(lines, ReadNamed(lines, product, "PRODUCT").value[0], "PRODUCT_CONTEXT", "APPLICATION_CONTEXT")
  }

  /** A geometric context with an uncertainty in its own length unit, and units
      of plane and solid angle. */
  predicate IsGeometricContext(lines: seq<Line>, id: nat) {
    var uses := ReadNamed(lines, id, "GEOMETRIC_REPRESENTATION_CONTEXT");
    && uses.Some? && |uses.value| == 4
    && ReadNamed(lines, uses.value[0], "UNCERTAINTY_MEASURE_WITH_UNIT") == Some([uses.value[1]])
    && ReadNamed(lines, uses.value[1], "LENGTH_UNIT").Some?
    && ReadNamed(lines, uses.value[2], "PLANE_ANGLE_UNIT").Some?
    && ReadNamed(lines, uses.value[3], "SOLID_ANGLE_UNIT").Some?
  }

  /** The shells under the definition of a product's shape, in a geometric
      context. */
  function ReadStep(lines: seq<Line>, root: nat): Option<seq<Shell>> {
    match Find(lines, root)
    case Some(ShapeDefinition(shape, representation)) =>
      if !IsProductShape(lines, shape) then None
      else
        (match Find(lines, representation)
         case Some(SurfaceRepresentation(surface, context)) =>
           if !IsGeometricContext(lines, context) then None
           else
             (match Find(lines, surface)
              case Some(SurfaceModel(shells)) => ReadShells(lines, shells)
              case _ => None)
         case _ => None)
    case _ => None
  }

  lemma {:induction false} FindNumbered(lines: seq<Line>, first: nat, k: nat)
    requires Numbered(lines, first) && k < |lines|
    ensures Find(lines, first + k) == Some(lines[k].entity)
  {
    if k > 0 {
      FindNumbered(lines[1..], first + 1, k - 1);
    }
  }

  lemma FindInData(ts: seq<Triangle>, id: nat)
    requires 1 <= id <= |DataSection(ts)|
    ensures Find(DataSection(ts), id) == Some(DataSection(ts)[id - 1].entity)
  {
    NumberedInOrder(ts);
    FindNumbered(DataSection(ts), 1, id - 1);
  }

  lemma TriangleFound(ts: seq<Triangle>, i: nat, j: nat)
    requires i < |ts| && j < 6
    ensures Find(DataSection(ts), 13 + 6 * i + j) == Some(TriangleLines(i, ts[i])[j].entity)
  {
    TriangleAt(ts, i, j);
    FindInData(ts, 13 + 6 * i + j);
  }

  /** A face read back is its triangle's corners. */
  lemma FaceReadsBack(ts: seq<Triangle>, i: nat)
    requires i < |ts|
    ensures ReadFace(DataSection(ts), 18 + 6 * i) == Some(ts[i].vertices)
  {
    var lines, p, first := DataSection(ts), ts[i].vertices, 13 + 6 * i;
    TriangleFound(ts, i, 0);
    TriangleFound(ts, i, 1);
    TriangleFound(ts, i, 2);
    PointsReadBack(lines, p, first);
    TriangleFound(ts, i, 3);
    TriangleFound(ts, i, 4);
    TriangleFound(ts, i, 5);
  }

  lemma ReadOnePoint(lines: seq<Line>, ids: seq<nat>, id: nat, before: seq<Point>, at: Point)
    requires ReadPoints(lines, ids) == Some(before) && Find(lines, id) == Some(CartesianPoint(at))
    ensures ReadPoints(lines, ids + [id]) == Some(before + [at])
  {
    assert (ids + [id])[..|ids|] == ids;
  }

  lemma PointsReadBack(lines: seq<Line>, p: Corners, first: nat)
    requires Find(lines, first) == Some(CartesianPoint(p[0]))
    requires Find(lines, first + 1) == Some(CartesianPoint(p[1]))
    requires Find(lines, first + 2) == Some(CartesianPoint(p[2]))
    ensures ReadPoints(lines, [first, first + 1, first + 2]) == Some(p)
  {
    ReadOnePoint(lines, [], first, [], p[0]);
    ReadOnePoint(lines, [] + [first], first + 1, [] + [p[0]], p[1]);
    ReadOnePoint(lines, [] + [first] + [first + 1], first + 2, [] + [p[0]] + [p[1]], p[2]);
    assert [] + [first] + [first + 1] + [first + 2] == [first, first + 1, first + 2];
    assert [] + [p[0]] + [p[1]] + [p[2]] == p;
  }

  /** A body's triangles, in the order given. */
  function TrianglesOf(ts: seq<Triangle>, body: nat): seq<seq<Point>> {
    if ts == [] then []
    else TrianglesOf(ts[..|ts| - 1], body) + (if ts[|ts| - 1].body == body then [ts[|ts| - 1].vertices] else [])
  }

  lemma ReadOneFace(lines: seq<Line>, ids: seq<nat>, id: nat, before: seq<seq<Point>>, face: seq<Point>)
    requires ReadFaces(lines, ids) == Some(before) && ReadFace(lines, id) == Some(face)
    ensures ReadFaces(lines, ids + [id]) == Some(before + [face])
  {
    assert (ids + [id])[..|ids|] == ids;
  }

  lemma {:induction false} FacesReadBack(lines: seq<Line>, ts: seq<Triangle>, body: nat)
    requires forall i :: 0 <= i < |ts| ==> ReadFace(lines, 18 + 6 * i) == Some(ts[i].vertices)
    ensures ReadFaces(lines, FaceIdsOf(ts, body)) == Some(TrianglesOf(ts, body))
  {
    if ts != [] {
      var n := |ts| - 1;
      FacesReadBack(lines, ts[..n], body);
      if ts[n].body == body {
        ReadOneFace(lines, FaceIdsOf(ts[..n], body), 12 + 6 * |ts|, TrianglesOf(ts[..n], body), ts[n].vertices);
      } else {
        assert FaceIdsOf(ts, body) == FaceIdsOf(ts[..n], body);
        assert TrianglesOf(ts, body) == TrianglesOf(ts[..n], body);
      }
    }
  }

  /** One shell a body, each with its body's triangles. */
  function Shells(ts: seq<Triangle>): (shells: seq<Shell>)
    ensures |shells| == |Shelves(ts)|
    ensures forall k :: 0 <= k < |shells| ==>
            shells[k] == Shell(Shelves(ts)[k].body, TrianglesOf(ts, Shelves(ts)[k].body))
  {
    seq(|Shelves(ts)|,
        k requires 0 <= k < |Shelves(ts)| => Shell(Shelves(ts)[k].body, TrianglesOf(ts, Shelves(ts)[k].body)))
  }

  /** The entity of this id is the shell, and its faces read back. */
  ghost predicate HoldsShell(lines: seq<Line>, id: nat, shell: Shell) {
    var e := Find(lines, id);
    && e.Some? && e.value.OpenShell? && e.value.body == shell.body
    && ReadFaces(lines, e.value.faces) == Some(shell.faces)
  }

  lemma ShelfReadsBack(ts: seq<Triangle>, body: nat)
    ensures ReadFaces(DataSection(ts), FaceIdsOf(ts, body)) == Some(TrianglesOf(ts, body))
  {
    forall i | 0 <= i < |ts| ensures ReadFace(DataSection(ts), 18 + 6 * i) == Some(ts[i].vertices) {
      FaceReadsBack(ts, i);
    }
    FacesReadBack(DataSection(ts), ts, body);
  }

  lemma ShellFound(ts: seq<Triangle>, k: nat)
    requires k < |Shelves(ts)|
    ensures Find(DataSection(ts), 13 + 6 * |ts| + k) ==
            Some(OpenShell(Shelves(ts)[k].body, FaceIdsOf(ts, Shelves(ts)[k].body)))
  {
    ShellAt(ts, k);
    ShelfIs(ts, k);
    FindInData(ts, 13 + 6 * |ts| + k);
  }

  lemma FoundIsHeld(lines: seq<Line>, id: nat, shell: Shell, faces: seq<nat>)
    requires Find(lines, id) == Some(OpenShell(shell.body, faces)) && ReadFaces(lines, faces) == Some(shell.faces)
    ensures HoldsShell(lines, id, shell)
  {
  }

  lemma ShelfIsHeld(ts: seq<Triangle>, k: nat, lines: seq<Line>, id: nat, body: nat)
    requires k < |Shelves(ts)| && lines == DataSection(ts) && id == 13 + 6 * |ts| + k && body == Shelves(ts)[k].body
    ensures HoldsShell(lines, id, Shell(body, TrianglesOf(ts, body)))
  {
    ShellFound(ts, k);
    ShelfReadsBack(ts, body);
    FoundIsHeld(lines, id, Shell(body, TrianglesOf(ts, body)), FaceIdsOf(ts, body));
  }

  lemma ShellReadsBack(ts: seq<Triangle>, k: nat)
    requires k < |Shelves(ts)|
    ensures HoldsShell(DataSection(ts), 13 + 6 * |ts| + k, Shells(ts)[k])
  {
    ShelfIsHeld(ts, k, DataSection(ts), 13 + 6 * |ts| + k, Shelves(ts)[k].body);
  }

  lemma ReadOneShell(lines: seq<Line>, ids: seq<nat>, id: nat, before: seq<Shell>, e: Entity, faces: seq<seq<Point>>)
    requires ReadShells(lines, ids) == Some(before)
    requires Find(lines, id) == Some(e) && e.OpenShell? && ReadFaces(lines, e.faces) == Some(faces)
    ensures ReadShells(lines, ids + [id]) == Some(before + [Shell(e.body, faces)])
  {
    assert (ids + [id])[..|ids|] == ids;
  }

  lemma {:induction false} ShellsReadBack(lines: seq<Line>, first: nat, shells: seq<Shell>)
    requires forall k :: 0 <= k < |shells| ==> HoldsShell(lines, first + k, shells[k])
    ensures ReadShells(lines, Ids(first, |shells|)) == Some(shells)
  {
    if shells != [] {
      var n := |shells| - 1;
      ShellsReadBack(lines, first, shells[..n]);
      assert HoldsShell(lines, first + n, shells[n]);
      var e := Find(lines, first + n).value;
      ReadOneShell(lines, Ids(first, n), first + n, shells[..n], e, shells[n].faces);
      assert Ids(first, n + 1) == Ids(first, n) + [first + n];
      assert shells == shells[..n] + [shells[n]];
    }
  }

  lemma ClosingFound(ts: seq<Triangle>, j: nat)
    requires j < 3
    ensures var n, shells := |Shelves(ts)|, 13 + 6 * |ts|;
            Find(DataSection(ts), shells + n + j) == Some(ClosingLines(shells + n, Ids(shells, n))[j].entity)
  {
    ClosingAt(ts, j, |Shelves(ts)|, 13 + 6 * |ts|);
    FindInData(ts, 13 + 6 * |ts| + |Shelves(ts)| + j);
  }

  lemma HeaderFound(ts: seq<Triangle>, id: nat)
    requires 1 <= id <= 12
    ensures Find(DataSection(ts), id) == Some(HeaderEntity(id))
  {
    HeaderAt(ts, id - 1);
    FindInData(ts, id);
  }

  ghost predicate HasHeader(lines: seq<Line>) {
    forall id: nat {:trigger Find(lines, id)} :: 1 <= id <= 12 ==> Find(lines, id) == Some(HeaderEntity(id))
  }

  lemma HeaderRefers(lines: seq<Line>, id: nat, name: string, use: nat, other: string, uses: seq<nat>)
    requires HasHeader(lines) && 1 <= id <= 12 && 1 <= use <= 12
    requires HeaderEntity(id) == Context(name, [use]) && HeaderEntity(use) == Context(other, uses)
    ensures RefersTo(lines, id, name, other) && ReadNamed(lines, id, name) == Some([use])
  {
  }

  lemma HeaderNamed(lines: seq<Line>, id: nat, name: string, uses: seq<nat>)
    requires HasHeader(lines) && 1 <= id <= 12 && HeaderEntity(id) == Context(name, uses)
    ensures ReadNamed(lines, id, name) == Some(uses)
  {
  }

  lemma HeaderIsProduct(lines: seq<Line>)
    requires HasHeader(lines)
    ensures IsProductShape(lines, 7)
  {
    HeaderRefers(lines, 7, "PRODUCT_DEFINITION_SHAPE", 6, "PRODUCT_DEFINITION", [4, 5]);
    HeaderNamed(lines, 6, "PRODUCT_DEFINITION", [4, 5]);
    HeaderRefers(lines, 4, "PRODUCT_DEFINITION_FORMATION", 3, "PRODUCT", [2]);
    HeaderRefers(lines, 5, "PRODUCT_DEFINITION_CONTEXT", 1, "APPLICATION_CONTEXT", []);
    HeaderRefers(lines, 3, "PRODUCT", 2, "PRODUCT_CONTEXT", [1]);
    HeaderRefers(lines, 2, "PRODUCT_CONTEXT", 1, "APPLICATION_CONTEXT", []);
  }

  lemma HeaderIsContext(lines: seq<Line>)
    requires HasHeader(lines)
    ensures IsGeometricContext(lines, 12)
  {
    HeaderNamed(lines, 12, "GEOMETRIC_REPRESENTATION_CONTEXT", [11, 8, 9, 10]);
    HeaderNamed(lines, 11, "UNCERTAINTY_MEASURE_WITH_UNIT", [8]);
    HeaderNamed(lines, 8, "LENGTH_UNIT", []);
    HeaderNamed(lines, 9, "PLANE_ANGLE_UNIT", []);
    HeaderNamed(lines, 10, "SOLID_ANGLE_UNIT", []);
  }

  lemma RootReads(lines: seq<Line>, first: nat, shells: seq<nat>)
    requires IsProductShape(lines, 7) && IsGeometricContext(lines, 12)
    requires Find(lines, first) == Some(ClosingLines(first, shells)[0].entity)
    requires Find(lines, first + 1) == Some(ClosingLines(first, shells)[1].entity)
    requires Find(lines, first + 2) == Some(ClosingLines(first, shells)[2].entity)
    ensures ReadStep(lines, first + 2) == ReadShells(lines, shells)
  {
  }

  lemma DataHasHeader(ts: seq<Triangle>)
    ensures IsProductShape(DataSection(ts), 7) && IsGeometricContext(DataSection(ts), 12)
  {
    forall id: nat {:trigger Find(DataSection(ts), id)} | 1 <= id <= 12
      ensures Find(DataSection(ts), id) == Some(HeaderEntity(id))
    {
      HeaderFound(ts, id);
    }
    HeaderIsProduct(DataSection(ts));
    HeaderIsContext(DataSection(ts));
  }

  /** Reading the file from its last entity finds a product's shape in a
      geometric context, and gives each body's triangles, shell by shell. */
  lemma StepReadsBack(ts: seq<Triangle>)
    ensures ReadStep(DataSection(ts), |DataSection(ts)|) == Some(Shells(ts))
  {
    var first := 13 + 6 * |ts|;
    NumberedInOrder(ts);
    DataHasHeader(ts);
    ClosingFound(ts, 0);
    ClosingFound(ts, 1);
    ClosingFound(ts, 2);
    RootReads(DataSection(ts), first + |Shelves(ts)|, Ids(first, |Shelves(ts)|));
    forall k | 0 <= k < |Shells(ts)| ensures HoldsShell(DataSection(ts), first + k, Shells(ts)[k]) {
      ShellReadsBack(ts, k);
    }
    ShellsReadBack(DataSection(ts), first, Shells(ts));
  }

  // -- the shells are a partition --------------------------------------------

  function FaceCount(shells: seq<Shell>): nat {
    if shells == [] then 0 else FaceCount(shells[..|shells| - 1]) + |shells[|shells| - 1].faces|
  }

  predicate Drawn(ts: seq<Triangle>, body: nat) {
    exists i :: 0 <= i < |ts| && ts[i].body == body
  }

  predicate Shelved(shelves: seq<Shelf>, body: nat) {
    exists k :: 0 <= k < |shelves| && shelves[k].body == body
  }

  lemma {:induction false} ShelvedAfter(shelves: seq<Shelf>, body: nat, face: nat, other: nat)
    ensures Shelved(Shelve(shelves, body, face), other) <==> Shelved(shelves, other) || other == body
  {
    var s := Shelve(shelves, body, face);
    if shelves == [] || body < shelves[0].body {
      assert s[0].body == body;
      assert forall k :: 0 <= k < |shelves| ==> s[k + 1] == shelves[k];
    } else if shelves[0].body == body {
      assert s[0].body == body;
      assert forall k :: 0 < k < |shelves| ==> s[k] == shelves[k];
    } else {
      var rest := Shelve(shelves[1..], body, face);
      ShelvedAfter(shelves[1..], body, face, other);
      ShelvedRest(shelves, other);
      ShelvedRest(s, other);
      assert s[1..] == rest;
    }
  }

  lemma ShelvedRest(shelves: seq<Shelf>, other: nat)
    requires shelves != []
    ensures Shelved(shelves, other) <==> shelves[0].body == other || Shelved(shelves[1..], other)
  {
    assert forall k :: 0 <= k < |shelves| - 1 ==> shelves[1..][k] == shelves[k + 1];
    if Shelved(shelves, other) {
      var k :| 0 <= k < |shelves| && shelves[k].body == other;
      assert k > 0 ==> shelves[1..][k - 1].body == other;
    }
    if Shelved(shelves[1..], other) {
      var k :| 0 <= k < |shelves| - 1 && shelves[1..][k].body == other;
      assert shelves[k + 1].body == other;
    }
  }

  lemma {:induction false} ShelvedIsDrawn(ts: seq<Triangle>, body: nat)
    ensures Shelved(Shelves(ts), body) <==> Drawn(ts, body)
  {
    if ts != [] {
      var n := |ts| - 1;
      ShelvedIsDrawn(ts[..n], body);
      ShelvedAfter(Shelves(ts[..n]), ts[n].body, 12 + 6 * |ts|, body);
      if Drawn(ts, body) {
        var i :| 0 <= i < |ts| && ts[i].body == body;
        assert i < n ==> ts[..n][i].body == body;
      }
      if Drawn(ts[..n], body) {
        var i :| 0 <= i < n && ts[..n][i].body == body;
        assert ts[i].body == body;
      }
      assert ts[n].body == ts[n].body;
    }
  }

  /** How many faces the shelves hold. */
  function Held(shelves: seq<Shelf>): nat {
    if shelves == [] then 0 else |shelves[0].faces| + Held(shelves[1..])
  }

  lemma {:induction false} ShelveHolds(shelves: seq<Shelf>, body: nat, face: nat)
    ensures Held(Shelve(shelves, body, face)) == Held(shelves) + 1
  {
    if shelves != [] && shelves[0].body < body {
      ShelveHolds(shelves[1..], body, face);
    }
  }

  lemma {:induction false} AllHeld(ts: seq<Triangle>)
    ensures Held(Shelves(ts)) == |ts|
  {
    if ts != [] {
      AllHeld(ts[..|ts| - 1]);
      ShelveHolds(Shelves(ts[..|ts| - 1]), ts[|ts| - 1].body, 12 + 6 * |ts|);
    }
  }

  lemma {:induction false} HeldAppend(shelves: seq<Shelf>, last: Shelf)
    ensures Held(shelves + [last]) == Held(shelves) + |last.faces|
  {
    if shelves != [] {
      assert (shelves + [last])[1..] == shelves[1..] + [last];
      HeldAppend(shelves[1..], last);
    }
  }

  lemma {:induction false} OneFaceEach(ts: seq<Triangle>, body: nat)
    ensures |TrianglesOf(ts, body)| == |FaceIdsOf(ts, body)|
  {
    if ts != [] {
      OneFaceEach(ts[..|ts| - 1], body);
    }
  }

  lemma {:induction false} CountIsHeld(ts: seq<Triangle>, n: nat)
    requires n <= |Shelves(ts)|
    ensures FaceCount(Shells(ts)[..n]) == Held(Shelves(ts)[..n])
  {
    if n > 0 {
      CountIsHeld(ts, n - 1);
      ShelfIs(ts, n - 1);
      OneFaceEach(ts, Shelves(ts)[n - 1].body);
      HeldAppend(Shelves(ts)[..n - 1], Shelves(ts)[n - 1]);
      assert Shelves(ts)[..n] == Shelves(ts)[..n - 1] + [Shelves(ts)[n - 1]];
      assert Shells(ts)[..n][..n - 1] == Shells(ts)[..n - 1];
    }
  }

  predicate Shelled(shells: seq<Shell>, body: nat) {
    exists k :: 0 <= k < |shells| && shells[k].body == body
  }

  lemma ShelledIsDrawn(ts: seq<Triangle>, body: nat)
    ensures Drawn(ts, body) <==> Shelled(Shells(ts), body)
  {
    var shelves, shells := Shelves(ts), Shells(ts);
    ShelvedIsDrawn(ts, body);
    if Shelved(shelves, body) {
      var k :| 0 <= k < |shelves| && shelves[k].body == body;
      assert shells[k].body == body;
    }
    if Shelled(shells, body) {
      var k :| 0 <= k < |shells| && shells[k].body == body;
      assert shelves[k].body == body;
    }
  }

  lemma ShellsAscend(ts: seq<Triangle>)
    ensures forall i, j :: 0 <= i < j < |Shells(ts)| ==> Shells(ts)[i].body < Shells(ts)[j].body
  {
    ShelvesHold(ts, 0);
  }

  lemma EveryFaceCounted(ts: seq<Triangle>)
    ensures FaceCount(Shells(ts)) == |ts|
  {
    var n := |Shelves(ts)|;
    AllHeld(ts);
    CountIsHeld(ts, n);
    assert Shelves(ts)[..n] == Shelves(ts) && Shells(ts)[..n] == Shells(ts);
  }

  /** One shell for each body drawn, in ascending order, and as many faces in
      all as there were triangles. */
  lemma ShellsPartitionTheFaces(ts: seq<Triangle>)
    ensures forall i, j :: 0 <= i < j < |Shells(ts)| ==> Shells(ts)[i].body < Shells(ts)[j].body
    ensures forall body :: Drawn(ts, body) <==> Shelled(Shells(ts), body)
    ensures FaceCount(Shells(ts)) == |ts|
  {
    ShellsAscend(ts);
    forall body ensures Drawn(ts, body) <==> Shelled(Shells(ts), body) {
      ShelledIsDrawn(ts, body);
    }
    EveryFaceCounted(ts);
  }
}
