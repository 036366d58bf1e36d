/**
  The parts of a persisted model document that replay reads, and the kernel
  behind it.

  Recipes, commands and geometry are opaque tokens: replay only carries them
  from the document to a resolver or to the kernel. Resolvers and kernel are
  parameters, so every theorem holds for any of them.
*/
module Document {
  import opened Results

  type FeatureId = nat
  type BodyId = nat
  type SketchId = nat
  type ComponentId = nat
  type SnapshotId = nat
  type Digest = nat

  const ZERO: SnapshotId := 0

  datatype Precision = Precision(policy: nat)
  datatype Command = Command(token: nat)
  datatype Template = Template(token: nat)
  datatype Recipe = Recipe(token: nat)
  datatype Parameters = Parameters(token: nat)
  datatype BooleanOperation = Union | Difference | Intersection

  // -- the kernel ------------------------------------------------------------

  datatype Snapshot = Snapshot(id: SnapshotId, digest: Digest, precision: Option<Precision>, solid: nat) {
    /** The policy a request on this snapshot runs under. */
    function PrecisionOr(root: Precision): Precision {
      if precision.Some? then precision.value else root
    }
  }

  const EMPTY_SNAPSHOT := Snapshot(ZERO, 0, None, 0)

  datatype OperationReport = OperationReport(input: SnapshotId, output: SnapshotId, digest: Digest, history: nat)
  datatype ExecutionOutcome = ExecutionOutcome(snapshot: Snapshot, report: OperationReport)
  datatype KernelError = EmptyChain(input: SnapshotId) | Refused(code: nat)

  datatype Kernel = Kernel(
    execute: (FeatureId, Snapshot, Precision, Command) -> Result<ExecutionOutcome, KernelError>,
    executeBoolean:
      (FeatureId, Snapshot, Snapshot, Precision, BooleanOperation) -> Result<ExecutionOutcome, KernelError>)

  /** The report names the requested snapshot and the one returned, and the
      returned snapshot is the one its id stands for. */
  ghost predicate HonestOutcome(input: Snapshot, outcome: ExecutionOutcome, content: SnapshotId -> Snapshot) {
    && outcome.report.input == input.id
    && outcome.report.output == outcome.snapshot.id
    && outcome.snapshot == content(outcome.snapshot.id)
  }

  /** What replay relies on: outcomes are honest, and an id determines its
      snapshot, `content` being that determination. */
  ghost predicate KernelContract(kernel: Kernel, content: SnapshotId -> Snapshot) {
    && content(ZERO) == EMPTY_SNAPSHOT
    && (forall f, s, p, c :: kernel.execute(f, s, p, c).Success? ==>
          HonestOutcome(s, kernel.execute(f, s, p, c).value, content))
    && (forall f, s, t, p, o :: kernel.executeBoolean(f, s, t, p, o).Success? ==>
          HonestOutcome(s, kernel.executeBoolean(f, s, t, p, o).value, content))
  }

  // -- the document ----------------------------------------------------------

  datatype FeatureInput = InputFeature(feature: FeatureId) | InputBody(body: BodyId) | InputSketch(sketch: SketchId)
  datatype FeatureOutput = OutputBody(body: BodyId) | OutputSketch(sketch: SketchId, revision: nat)

  datatype ReplayAction =
    | Marker
    | DatumPlane(recipe: Recipe)
    | DatumAxis(recipe: Recipe)
    | TargetedKernel(template: Template)
    | KernelCommand(command: Command)
    | ParameterizedKernel(recipe: Recipe)
    | SketchRegionExtrusion(recipe: Recipe, hasExpression: bool)
    | SketchLoft(recipe: Recipe)
    | SketchSweep(recipe: Recipe)
    | SketchRevolve(recipe: Recipe, hasExpression: bool)
    | KernelChain(chain: seq<Command>)
    | Boolean(target: BodyId, tool: BodyId, operation: BooleanOperation)
  {
    predicate IsDocumentOnly() {
      Marker? || DatumPlane? || DatumAxis?
    }

    predicate ReadsParameters() {
      match this
      case ParameterizedKernel(_) => true
      case SketchRegionExtrusion(_, hasExpression) => hasExpression
      case SketchRevolve(_, hasExpression) => hasExpression
      case _ => false
    }
  }

  datatype SnapshotAssociation = SnapshotAssociation(input: SnapshotId, output: SnapshotId, digest: Digest)

  datatype RebuildState = Clean | Dirty

  datatype FeatureNode = FeatureNode(
    id: FeatureId,
    inputs: seq<FeatureInput>,
    dependencies: seq<FeatureId>,
    outputs: seq<FeatureOutput>,
    action: ReplayAction,
    suppressed: bool,
    readOnly: bool,
    rebuild: RebuildState,
    committed: Option<SnapshotAssociation>)

  datatype BodyRecord = BodyRecord(createdBy: FeatureId)
  datatype SketchRecord = SketchRecord(supportBody: Option<BodyId>)
  datatype Component = Component(id: ComponentId, createdBy: FeatureId, suppressed: bool)

  /** The browser records and retained recipes lookups read. None of them
      depends on the history cursor or on a feature's rebuild state. */
  datatype Tables = Tables(
    bodies: map<BodyId, BodyRecord>,
    sketches: map<SketchId, SketchRecord>,
    components: seq<Component>,
    payloads: nat)

  datatype ModelDocument = ModelDocument(tables: Tables, features: seq<FeatureNode>, position: nat)

  predicate ValidCursor(document: ModelDocument) {
    document.position <= |document.features|
  }

  ghost predicate UniqueIds(features: seq<FeatureNode>) {
    forall i, j :: 0 <= i < j < |features| ==> features[i].id != features[j].id
  }

  /** Some feature before position `i` has this id. */
  ghost predicate Precedes(features: seq<FeatureNode>, id: FeatureId, i: nat)
    requires i <= |features|
  {
    exists j :: 0 <= j < i && features[j].id == id
  }

  ghost predicate DependenciesPrecede(features: seq<FeatureNode>) {
    forall i, d :: 0 <= i < |features| && d in features[i].dependencies ==> Precedes(features, d, i)
  }

  /** What the document loader has checked before replay sees a document. */
  ghost predicate ValidDocument(document: ModelDocument) {
    && ValidCursor(document)
    && UniqueIds(document.features)
    && DependenciesPrecede(document.features)
  }

  // -- what recipes resolve to -----------------------------------------------

  /** A recipe resolved to one kernel command, or to one whose target is
      still to be found in the reports so far. */
  datatype Concrete = Plain(command: Command) | Targeted(template: Template)

  datatype SketchError = SketchError(code: nat)

  datatype PersistentResolution = Resolved(command: Command) | Missing(reason: nat) | Ambiguous(reason: nat)

  datatype FeatureReport = FeatureReport(feature: FeatureId, report: OperationReport)

  datatype Resolvers = Resolvers(
    evaluateParameters: Tables -> Result<Parameters, string>,
    bindKernel: (Recipe, Parameters) -> Result<Concrete, string>,
    bindSketch: (Recipe, Parameters) -> Result<Recipe, string>,
    resolveSketch: (Recipe, Tables, Precision) -> Result<Concrete, SketchError>,
    rebind: (Template, seq<FeatureReport>, SnapshotId) -> PersistentResolution)
}
