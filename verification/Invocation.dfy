/**
  Operand roles and bindings, the resolver that reads a whole selection at
  once, and the armed tool that gathers the same operands pick by pick.
*/
module Invocation {
  import opened Results

  type BodyKey = nat
  type RoleId = string

  datatype EntityRef = EntityRef(snapshot: nat, entity: nat)

  /** One picked thing, with the occurrence it belongs to. */
  datatype Item =
    | Body(body: BodyKey)
    | Face(body: BodyKey, face: EntityRef)
    | Edge(body: BodyKey, edge: EntityRef)
    | Vertex(body: BodyKey, vertex: EntityRef)

  datatype Eligibility = Accept | WrongKind | Incompatible(why: string) | Immutable(why: string) | Stale

  datatype Cardinality = Exactly(n: nat) | AtLeast(n: nat) | Between(low: nat, high: nat) {
    predicate SatisfiedBy(count: nat) {
      match this
      case Exactly(n) => count == n
      case AtLeast(n) => count >= n
      case Between(low, high) => low <= count <= high
    }

    predicate AcceptsMore(count: nat) {
      match this
      case Exactly(n) => count < n
      case AtLeast(_) => true
      case Between(_, high) => count < high
    }

    /** No role asks for more than it takes. */
    predicate WellOrdered() {
      Between? ==> low <= high
    }
  }

  datatype SourcePolicy = Symmetric | ActiveOrExplicit | ExplicitOnly

  /** What the resolver may ask of the document. */
  datatype Context = Context(
    active: Option<BodyKey>,
    resolves: Item -> bool,
    editable: BodyKey -> bool,
    planar: Item -> bool)

  datatype Role = Role(
    id: RoleId,
    prompt: string,
    cardinality: Cardinality,
    source: SourcePolicy,
    accepts: (Context, Bindings, Item) -> Eligibility)

  type Schema = seq<Role>

  // -- bindings --------------------------------------------------------------

  datatype Bound = Bound(role: RoleId, items: seq<Item>)

  datatype Bindings = Bindings(bound: seq<Bound>) {
    /** The slot of a role, or one past the last. */
    function Slot(role: RoleId): (k: nat)
      ensures k <= |bound|
      ensures k < |bound| ==> bound[k].role == role
      ensures forall i :: 0 <= i < k ==> bound[i].role != role
    {
      SlotFrom(bound, role)
    }

    static function SlotFrom(bound: seq<Bound>, role: RoleId): (k: nat)
      ensures k <= |bound|
      ensures k < |bound| ==> bound[k].role == role
      ensures forall i :: 0 <= i < k ==> bound[i].role != role
    {
      if bound == [] then 0 else if bound[0].role == role then 0 else 1 + SlotFrom(bound[1..], role)
    }

    function Get(role: RoleId): seq<Item> {
      if Slot(role) < |bound| then bound[Slot(role)].items else []
    }

    function Count(role: RoleId): nat {
      |Get(role)|
    }

    function Push(role: RoleId, item: Item): Bindings {
      var k := Slot(role);
      if k < |bound| then Bindings(bound[k := Bound(role, bound[k].items + [item])])
      else Bindings(bound + [Bound(role, [item])])
    }

    function Remove(role: RoleId, item: Item): Bindings {
      var k := Slot(role);
      if k < |bound| then Bindings(bound[k := Bound(role, Without(bound[k].items, item))]) else this
    }

    /** Keeps what the document still resolves. */
    function RetainResolvable(context: Context): Bindings {
      Bindings(seq(|bound|, i requires 0 <= i < |bound| => Bound(bound[i].role, Live(context, bound[i].items))))
    }

    /** What retaining drops, role by role. */
    function Lost(context: Context): seq<Item> {
      LostFrom(context, bound)
    }

    static function LostFrom(context: Context, bound: seq<Bound>): seq<Item> {
      if bound == [] then [] else Gone(context, bound[0].items) + LostFrom(context, bound[1..])
    }
  }

  const NO_BINDINGS := Bindings([])

  function Without(items: seq<Item>, item: Item): seq<Item> {
    if items == [] then []
    else if items[0] == item then Without(items[1..], item)
    else [items[0]] + Without(items[1..], item)
  }

  function Live(context: Context, items: seq<Item>): seq<Item> {
    if items == [] then []
    else if context.resolves(items[0]) then [items[0]] + Live(context, items[1..])
    else Live(context, items[1..])
  }

  function Gone(context: Context, items: seq<Item>): seq<Item> {
    if items == [] then []
    else if context.resolves(items[0]) then Gone(context, items[1..])
    else [items[0]] + Gone(context, items[1..])
  }

  // -- selection first -------------------------------------------------------

  datatype Rejection = Rejection(item: Item, why: string)

  datatype Diagnostics = Diagnostics(extraneous: seq<Item>, rejected: seq<Rejection>, stale: seq<Item>)

  const NO_DIAGNOSTICS := Diagnostics([], [], [])

  datatype Resolution =
    | Complete(bindings: Bindings, diagnostics: Diagnostics)
    | NeedsOperands(role: RoleId, prompt: string, bindings: Bindings, diagnostics: Diagnostics)
    | InvalidSelection(diagnostics: Diagnostics)

  predicate IsRejected(rejected: seq<Rejection>, item: Item) {
    exists k :: 0 <= k < |rejected| && rejected[k].item == item
  }

  /** What harvesting has decided so far about the live items. */
  datatype Harvest = Harvest(bindings: Bindings, rejected: seq<Rejection>, stale: seq<Item>, taken: seq<bool>)

  function Reject(h: Harvest, index: nat, item: Item, why: string): Harvest
    requires index < |h.taken|
  {
    h.(rejected := if IsRejected(h.rejected, item) then h.rejected else h.rejected + [Rejection(item, why)],
       taken := h.taken[index := true])
  }

  /** What considering an unsettled item comes to, by its verdict. */
  function Settled(role: Role, h: Harvest, index: nat, item: Item, verdict: Eligibility): (r: Harvest)
    requires index < |h.taken|
    ensures |r.taken| == |h.taken|
  {
    match verdict
    case Accept => h.(bindings := h.bindings.Push(role.id, item), taken := h.taken[index := true])
    case Incompatible(why) => Reject(h, index, item, why)
    case Immutable(why) => Reject(h, index, item, why)
    case Stale => h.(stale := h.stale + [item], taken := h.taken[index := true])
    case WrongKind => h
  }

  /** One live item offered to one role. */
  function Consider(context: Context, role: Role, h: Harvest, index: nat, item: Item): (r: Harvest)
    requires index < |h.taken|
    ensures |r.taken| == |h.taken|
  {
    if h.taken[index] || !role.cardinality.AcceptsMore(h.bindings.Count(role.id)) then h
    else Settled(role, h, index, item, role.accepts(context, h.bindings, item))
  }

  /** The first `n` live items offered to one role in order. */
  function ConsiderFirst(context: Context, role: Role, live: seq<Item>, h: Harvest, n: nat): (r: Harvest)
    requires |h.taken| == |live| && n <= |live|
    ensures |r.taken| == |live|
  {
    if n == 0 then h else Consider(context, role, ConsiderFirst(context, role, live, h, n - 1), n - 1, live[n - 1])
  }

  function HarvestRole(context: Context, role: Role, live: seq<Item>, h: Harvest): (r: Harvest)
    requires |h.taken| == |live|
    ensures |r.taken| == |live|
  {
    match role.source
    case ExplicitOnly => h
    case ActiveOrExplicit =>
      if context.active.Some? && role.accepts(context, h.bindings, Body(context.active.value)).Accept?
      then h.(bindings := h.bindings.Push(role.id, Body(context.active.value)))
      else h
    case Symmetric => ConsiderFirst(context, role, live, h, |live|)
  }

  function HarvestAll(context: Context, schema: Schema, live: seq<Item>, n: nat): (r: Harvest)
    requires n <= |schema|
    ensures |r.taken| == |live|
  {
    if n == 0 then Harvest(NO_BINDINGS, [], [], seq(|live|, _ => false))
    else HarvestRole(context, schema[n - 1], live, HarvestAll(context, schema, live, n - 1))
  }

  function Untaken(live: seq<Item>, taken: seq<bool>): seq<Item>
    requires |taken| == |live|
  {
    if live == [] then []
    else
      var n := |live| - 1;
      Untaken(live[..n], taken[..n]) + (if taken[n] then [] else [live[n]])
  }

  /** The first role still short, if any. */
  function FirstUnsatisfied(schema: Schema, bindings: Bindings): Option<Role> {
    if schema == [] then None
    else if !schema[0].cardinality.SatisfiedBy(bindings.Count(schema[0].id)) then Some(schema[0])
    else FirstUnsatisfied(schema[1..], bindings)
  }

  function Conclude(schema: Schema, bindings: Bindings, diagnostics: Diagnostics): Resolution {
    if diagnostics.rejected != [] then InvalidSelection(diagnostics)
    else
      match FirstUnsatisfied(schema, bindings)
      case Some(role) => NeedsOperands(role.id, role.prompt, bindings, diagnostics)
      case None => Complete(bindings, diagnostics)
  }

  function ResolveSchema(context: Context, schema: Schema, selection: seq<Item>): Resolution {
    var live := Live(context, selection);
    var h := HarvestAll(context, schema, live, |schema|);
    Conclude(schema, h.bindings, Diagnostics(Untaken(live, h.taken), h.rejected, Gone(context, selection) + h.stale))
  }

  // -- selection first, carried out ------------------------------------------

  /** Offers every live item to one role, marking those it settles. */
  method HarvestSymmetric(context: Context, role: Role, live: seq<Item>, taken: array<bool>,
                          bindings: Bindings, rejected: seq<Rejection>, stale: seq<Item>)
    returns (bindings': Bindings, rejected': seq<Rejection>, stale': seq<Item>)
    requires taken.Length == |live|
    modifies taken
    ensures Harvest(bindings', rejected', stale', taken[..]) ==
            ConsiderFirst(context, role, live, Harvest(bindings, rejected, stale, old(taken[..])), |live|)
  {
    bindings', rejected', stale' := bindings, rejected, stale;
    ghost var start := Harvest(bindings, rejected, stale, taken[..]);
    for index := 0 to |live|
      invariant Harvest(bindings', rejected', stale', taken[..]) == ConsiderFirst(context, role, live, start, index)
    {
      var item := live[index];
      if taken[index] || !role.cardinality.AcceptsMore(bindings'.Count(role.id)) {
        continue;
      }
      match role.accepts(context, bindings', item) {
        case Accept =>
          bindings' := bindings'.Push(role.id, item);
          taken[index] := true;
        case Incompatible(why) =>
          if !IsRejected(rejected', item) {
            rejected' := rejected' + [Rejection(item, why)];
          }
          taken[index] := true;
        case Immutable(why) =>
          if !IsRejected(rejected', item) {
            rejected' := rejected' + [Rejection(item, why)];
          }
          taken[index] := true;
        case Stale =>
          stale' := stale' + [item];
          taken[index] := true;
        case WrongKind =>
      }
    }
  }

  /** Resolves a selection against one reading of a request. */
  method ResolveOneSchema(context: Context, schema: Schema, selection: seq<Item>) returns (r: Resolution)
    ensures r == ResolveSchema(context, schema, selection)
  {
    var live := Live(context, selection);
    var bindings, rejected, stale := NO_BINDINGS, [], [];
    var taken := new bool[|live|](_ => false);
    assert taken[..] == seq(|live|, _ => false);
    for n := 0 to |schema|
      invariant Harvest(bindings, rejected, stale, taken[..]) == HarvestAll(context, schema, live, n)
    {
      var role := schema[n];
      if role.source == ExplicitOnly {
        continue;
      }
      if role.source == ActiveOrExplicit {
        if context.active.Some? && role.accepts(context, bindings, Body(context.active.value)).Accept? {
          bindings := bindings.Push(role.id, Body(context.active.value));
        }
        continue;
      }
      bindings, rejected, stale := HarvestSymmetric(context, role, live, taken, bindings, rejected, stale);
    }
    var extraneous := [];
    for index := 0 to |live|
      invariant extraneous == Untaken(live[..index], taken[..index])
    {
      assert live[..index + 1][..index] == live[..index] && taken[..index + 1][..index] == taken[..index];
      if !taken[index] {
        extraneous := extraneous + [live[index]];
      }
    }
    assert live[..|live|] == live && taken[..|live|] == taken[..];
    return Conclude(schema, bindings, Diagnostics(extraneous, rejected, Gone(context, selection) + stale));
  }

  /** What each reading comes to. */
  function Readings(context: Context, alternatives: seq<Schema>, selection: seq<Item>): (readings: seq<Resolution>)
    ensures |readings| == |alternatives|
    ensures forall k :: 0 <= k < |readings| ==> readings[k] == ResolveSchema(context, alternatives[k], selection)
  {
    seq(|alternatives|, k requires 0 <= k < |alternatives| => ResolveSchema(context, alternatives[k], selection))
  }

  /** This reading completes and none before it does. */
  ghost predicate FirstComplete(readings: seq<Resolution>, k: int) {
    && 0 <= k < |readings|
    && readings[k].Complete?
    && (forall i :: 0 <= i < k ==> !readings[i].Complete?)
  }

  /** The first complete reading, and failing that the preferred one. */
  ghost predicate Chosen(readings: seq<Resolution>, r: Resolution) {
    && (forall k :: FirstComplete(readings, k) ==> r == readings[k])
    && ((forall i :: 0 <= i < |readings| ==> !readings[i].Complete?) ==>
          r == if readings == [] then InvalidSelection(NO_DIAGNOSTICS) else readings[0])
  }

  /** None of the first `n` readings completes. */
  ghost predicate NoneComplete(readings: seq<Resolution>, n: nat)
    requires n <= |readings|
  {
    forall i :: 0 <= i < n ==> !readings[i].Complete?
  }

  lemma NextIncomplete(readings: seq<Resolution>, n: nat)
    requires n < |readings| && NoneComplete(readings, n) && !readings[n].Complete?
    ensures NoneComplete(readings, n + 1)
  {
  }

  lemma FirstIsChosen(readings: seq<Resolution>, k: nat)
    requires k < |readings| && NoneComplete(readings, k) && readings[k].Complete?
    ensures Chosen(readings, readings[k])
  {
  }

  lemma PreferredIsChosen(readings: seq<Resolution>)
    requires NoneComplete(readings, |readings|)
    ensures Chosen(readings, if readings == [] then InvalidSelection(NO_DIAGNOSTICS) else readings[0])
  {
  }

  /** Tries the readings in order. */
  method Resolve(context: Context, alternatives: seq<Schema>, selection: seq<Item>) returns (r: Resolution)
    ensures Chosen(Readings(context, alternatives, selection), r)
  {
    ghost var readings := Readings(context, alternatives, selection);
    var best: Option<Resolution> := None;
    for n := 0 to |alternatives|
      invariant NoneComplete(readings, n)
      invariant best == if n == 0 then None else Some(readings[0])
    {
      var resolution := ResolveOneSchema(context, alternatives[n], selection);
      assert resolution == readings[n];
      if resolution.Complete? {
        FirstIsChosen(readings, n);
        return resolution;
      }
      NextIncomplete(readings, n);
      if best.None? {
        best := Some(resolution);
      }
    }
    PreferredIsChosen(readings);
    return if best.Some? then best.value else InvalidSelection(NO_DIAGNOSTICS);
  }

  // -- tool first ------------------------------------------------------------

  /** A pressed tool collecting operands, as a value. */
  datatype Armed = Armed(schema: Schema, bindings: Bindings, diagnostics: Diagnostics, resolvedAt: nat) {
    function WaitingFor(): Option<Role> {
      FirstUnsatisfied(schema, bindings)
    }

    /** The role the next pick goes to: the first one short, or else the last
        with room. */
    function Taking(): Option<Role> {
      if WaitingFor().Some? then WaitingFor() else LastWithRoom(schema, bindings)
    }

    predicate Accepts(context: Context, item: Item) {
      Taking().Some? && Taking().value.accepts(context, bindings, item).Accept?
    }

    /** The tool after a pick, and whether the pick changed its bindings. */
    function Offer(context: Context, item: Item): (Armed, bool) {
      match Taking()
      case None => (this, false)
      case Some(role) =>
        if item in bindings.Get(role.id) then (this.(bindings := bindings.Remove(role.id, item)), true)
        else
          match role.accepts(context, bindings, item)
          case Accept => (this.(bindings := bindings.Push(role.id, item)), true)
          case Incompatible(why) => (this.(diagnostics := Refuse(diagnostics, item, why)), false)
          case Immutable(why) => (this.(diagnostics := Refuse(diagnostics, item, why)), false)
          case _ => (this, false)
    }

    function Revalidate(context: Context, revision: nat): Armed {
      if resolvedAt == revision then this
      else
        this.(resolvedAt := revision,
              bindings := bindings.RetainResolvable(context),
              diagnostics := diagnostics.(stale := diagnostics.stale + bindings.Lost(context)))
    }
  }

  function Refuse(diagnostics: Diagnostics, item: Item, why: string): Diagnostics {
    diagnostics.(rejected := diagnostics.rejected + [Rejection(item, why)])
  }

  function LastWithRoom(schema: Schema, bindings: Bindings): Option<Role> {
    if schema == [] then None
    else
      var last := schema[|schema| - 1];
      if last.cardinality.AcceptsMore(bindings.Count(last.id)) then Some(last)
      else LastWithRoom(schema[..|schema| - 1], bindings)
  }

  /** A pressed tool, holding its own bindings while it waits. */
  class ArmedTool {
    const schema: Schema
    var bindings: Bindings
    var diagnostics: Diagnostics
    var resolvedAt: nat

    constructor (schema: Schema, bindings: Bindings, diagnostics: Diagnostics, revision: nat)
      ensures State() == Armed(schema, bindings, diagnostics, revision)
    {
      this.schema := schema;
      this.bindings := bindings;
      this.diagnostics := diagnostics;
      resolvedAt := revision;
    }

    function State(): Armed
      reads this
    {
      Armed(schema, bindings, diagnostics, resolvedAt)
    }

    /** One click with the tool armed; says whether the bindings changed. */
    method Offer(context: Context, item: Item) returns (bound: bool)
      modifies this`bindings, this`diagnostics
      ensures (State(), bound) == old(State()).Offer(context, item)
    {
      var taking := State().Taking();
      if taking.None? {
        return false;
      }
      var role := taking.value;
      if item in bindings.Get(role.id) {
        bindings := bindings.Remove(role.id, item);
        return true;
      }
      match role.accepts(context, bindings, item) {
        case Accept =>
          bindings := bindings.Push(role.id, item);
          return true;
        case Incompatible(why) =>
          diagnostics := Refuse(diagnostics, item, why);
          return false;
        case Immutable(why) =>
          diagnostics := Refuse(diagnostics, item, why);
          return false;
        case WrongKind =>
          return false;
        case Stale =>
          return false;
      }
    }

    /** Moves bindings the document has lost to the stale list, once for each
        new revision. */
    method Revalidate(context: Context, revision: nat)
      modifies this`bindings, this`diagnostics, this`resolvedAt
      ensures State() == old(State()).Revalidate(context, revision)
    {
      if resolvedAt == revision {
        return;
      }
      resolvedAt := revision;
      var kept, lost := [], [];
      ghost var retained := bindings.RetainResolvable(context).bound;
      for n := 0 to |bindings.bound|
        invariant bindings == old(bindings)
        invariant |kept| == n && forall i :: 0 <= i < n ==> kept[i] == retained[i]
        invariant lost + Bindings.LostFrom(context, bindings.bound[n..]) == bindings.Lost(context)
      {
        var entry := bindings.bound[n];
        assert bindings.bound[n..][1..] == bindings.bound[n + 1..];
        kept := kept + [Bound(entry.role, Live(context, entry.items))];
        lost := lost + Gone(context, entry.items);
      }
      diagnostics := diagnostics.(stale := diagnostics.stale + lost);
      bindings := Bindings(kept);
    }
  }

  // -- the appetites ---------------------------------------------------------

  const EDGES_TO_FINISH: RoleId := "edges"
  const TARGET_FACE: RoleId := "face"
  const TARGET_BODY: RoleId := "body"
  const BOOLEAN_TARGET: RoleId := "target"
  const BOOLEAN_TOOLS: RoleId := "tools"
  const PUSH_PULL_FACE: RoleId := "face"
  const PROFILE_REGION: RoleId := "profile"
  const RELATION_OPERANDS: RoleId := "operands"

  const IMMUTABLE := "library component geometry is immutable"

  /** Edges of one editable body. */
  function AcceptsFinishEdge(context: Context, bindings: Bindings, item: Item): Eligibility {
    if !item.Edge? then WrongKind
    else if !context.editable(item.body) then Immutable(IMMUTABLE)
    else
      var edges := bindings.Get(EDGES_TO_FINISH);
      if edges != [] && edges[0].body != item.body then Incompatible("edges must be on one body") else Accept
  }

  function AcceptsPlanarFace(context: Context, bindings: Bindings, item: Item): Eligibility {
    if !item.Face? then WrongKind
    else if !context.editable(item.body) then Immutable(IMMUTABLE)
    else if !context.planar(item) then Incompatible("this feature needs a planar face")
    else Accept
  }

  function AcceptsEditableBody(context: Context, bindings: Bindings, item: Item): Eligibility {
    if !item.Body? then WrongKind
    else if !context.editable(item.body) then Immutable(IMMUTABLE)
    else Accept
  }

  /** Any body except the target. */
  function AcceptsBooleanTool(context: Context, bindings: Bindings, item: Item): Eligibility {
    if !item.Body? then WrongKind
    else if item in bindings.Get(BOOLEAN_TARGET) then Incompatible("the target body cannot also be a tool")
    else AcceptsEditableBody(context, bindings, item)
  }

  /** Sketch geometry is picked on the sketch's own canvas. */
  function AcceptsNothingHere(context: Context, bindings: Bindings, item: Item): Eligibility {
    WrongKind
  }

  const EDGE_ROLE := Role(EDGES_TO_FINISH, "Pick the edges to finish", AtLeast(1), Symmetric, AcceptsFinishEdge)
  const FACE_ROLE := Role(TARGET_FACE, "Pick a planar face", Exactly(1), Symmetric, AcceptsPlanarFace)
  const BODY_ROLE := Role(TARGET_BODY, "Pick a body", Exactly(1), ActiveOrExplicit, AcceptsEditableBody)
  const PUSH_PULL_ROLE := Role(PUSH_PULL_FACE, "Pick the face to push or pull", Exactly(1), Symmetric,
                               AcceptsPlanarFace)
  const PROFILE_ROLE := Role(PROFILE_REGION, "Pick the profile to extrude", AtLeast(1), ExplicitOnly,
                             AcceptsNothingHere)
  const RELATION_ROLE :=
    Role(RELATION_OPERANDS, "Pick the sketch geometry the relation applies to", Between(2, 2), Symmetric,
         AcceptsNothingHere)
  const TARGET_ROLE := Role(BOOLEAN_TARGET, "Pick the body to cut into", Exactly(1), ActiveOrExplicit,
                            AcceptsEditableBody)
  const TOOLS_ROLE := Role(BOOLEAN_TOOLS, "Pick the bodies to cut with", AtLeast(1), ExplicitOnly, AcceptsBooleanTool)

  const EDGE_FINISH: Schema := [EDGE_ROLE]
  const PLANAR_FACE_FEATURE: Schema := [FACE_ROLE]
  const WHOLE_BODY_FEATURE: Schema := [BODY_ROLE]
  const FACE_PUSH_PULL: Schema := [PUSH_PULL_ROLE]
  const SKETCH_EXTRUSION: Schema := [PROFILE_ROLE]
  const SKETCH_RELATION: Schema := [RELATION_ROLE]
  const BODY_BOOLEAN: Schema := [TARGET_ROLE, TOOLS_ROLE]
}
