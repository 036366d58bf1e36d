/**
  Rebuilding a loaded document from its features: the turn of one feature as
  a function of the stage before it, and the loops that carry it out over maps
  and lists, proved equal to that function.
*/
module Replay {
  import opened Results
  import opened Document

  datatype HydratedProvenance = Verified | Regenerated(persisted: Option<SnapshotAssociation>)

  datatype HydratedFeature = HydratedFeature(
    feature: FeatureId,
    branches: seq<BodyId>,
    association: SnapshotAssociation,
    report: Option<OperationReport>,
    provenance: HydratedProvenance,
    commands: seq<Command>)

  datatype SkipReason =
    | ExplicitSuppression
    | SuppressedDependency(dependency: FeatureId)
    | SuppressedComponent(component: ComponentId)

  datatype HydratedSkip = HydratedSkip(feature: FeatureId, reason: SkipReason)

  datatype HydratedDocument = HydratedDocument(
    document: ModelDocument,
    snapshots: map<SnapshotId, Snapshot>,
    features: seq<HydratedFeature>,
    branchHeads: map<BodyId, SnapshotId>,
    skipped: seq<HydratedSkip>,
    beyondHistoryCursor: seq<FeatureId>)

  datatype HydrationError =
    | ParameterEvaluation(message: string)
    | ParameterizedAction(feature: FeatureId, message: string)
    | SketchRegion(feature: FeatureId, error: SketchError)
    | KernelActionWithoutBody(feature: FeatureId)
    | MissingBranchSnapshot(feature: FeatureId, body: BodyId)
    | MixedRootAndExistingBranches(feature: FeatureId)
    | DivergentBranchInputs(feature: FeatureId, snapshots: seq<SnapshotId>)
    | SnapshotUnavailable(feature: FeatureId, snapshot: SnapshotId)
    | PersistentTargetMissing(feature: FeatureId, reason: nat)
    | PersistentTargetAmbiguous(feature: FeatureId, reason: nat)
    | KernelFailure(feature: FeatureId, kernelError: KernelError)
    | MissingCleanProvenance(feature: FeatureId)
    | ProvenanceMismatch(feature: FeatureId, persisted: SnapshotAssociation, replayed: SnapshotAssociation)
  {
    /** The feature whose recipe does not build, when that is what failed. */
    function UnbuildableFeature(): Option<FeatureId> {
      match this
      case ParameterizedAction(feature, _) => Some(feature)
      case SketchRegion(feature, _) => Some(feature)
      case PersistentTargetMissing(feature, _) => Some(feature)
      case PersistentTargetAmbiguous(feature, _) => Some(feature)
      case KernelFailure(feature, _) => Some(feature)
      case _ => None
    }
  }

  /** Everything replay reads that no feature changes. */
  datatype Session = Session(
    kernel: Kernel,
    resolvers: Resolvers,
    tables: Tables,
    parameters: Option<Parameters>,
    rootPrecision: Precision)

  /** The private stage one run owns. */
  datatype Stage = Stage(
    snapshots: map<SnapshotId, Snapshot>,
    features: seq<HydratedFeature>,
    branchHeads: map<BodyId, SnapshotId>,
    skipped: seq<HydratedSkip>,
    unavailable: set<FeatureId>)

  const EMPTY_STAGE := Stage(map[ZERO := EMPTY_SNAPSHOT], [], map[], [], {})

  // -- ordered sets ----------------------------------------------------------

  /** Inserting into an ordered set kept as an ascending list. */
  function Insert(ordered: seq<nat>, x: nat): (r: seq<nat>) {
    if ordered == [] then [x]
    else if x < ordered[0] then [x] + ordered
    else if x == ordered[0] then ordered
    else [ordered[0]] + Insert(ordered[1..], x)
  }

  /** The distinct values of a list in ascending order. */
  function Ordered(items: seq<nat>): (r: seq<nat>) {
    if items == [] then [] else Insert(Ordered(items[..|items| - 1]), items[|items| - 1])
  }

  // -- branches and inputs ---------------------------------------------------

  function InputBodies(tables: Tables, inputs: seq<FeatureInput>): seq<BodyId> {
    if inputs == [] then []
    else
      var rest := InputBodies(tables, inputs[1..]);
      match inputs[0]
      case InputBody(body) => [body] + rest
      case InputSketch(sketch) =>
        if sketch in tables.sketches && tables.sketches[sketch].supportBody.Some?
        then [tables.sketches[sketch].supportBody.value] + rest
        else rest
      case InputFeature(_) => rest
  }

  function OutputBodies(outputs: seq<FeatureOutput>): seq<BodyId> {
    if outputs == [] then []
    else if outputs[0].OutputBody? then [outputs[0].body] + OutputBodies(outputs[1..])
    else OutputBodies(outputs[1..])
  }

  /** The bodies a feature acts on. A Boolean advances its target only. */
  function FeatureBranches(tables: Tables, feature: FeatureNode): seq<BodyId> {
    match feature.action
    case Boolean(target, _, _) => [target]
    case _ => Ordered(InputBodies(tables, feature.inputs) + OutputBodies(feature.outputs))
  }

  predicate CreatedBy(tables: Tables, body: BodyId, feature: FeatureId) {
    body in tables.bodies && tables.bodies[body].createdBy == feature
  }

  /** The first of these bodies with no head, if any. */
  function FirstHeadless(bodies: seq<BodyId>, heads: map<BodyId, SnapshotId>): Option<BodyId> {
    if bodies == [] then None
    else if bodies[0] !in heads then Some(bodies[0])
    else FirstHeadless(bodies[1..], heads)
  }

  function HeadsOf(bodies: seq<BodyId>, heads: map<BodyId, SnapshotId>): (r: seq<SnapshotId>)
    requires forall b :: b in bodies ==> b in heads
    ensures |r| == |bodies|
    ensures forall i :: 0 <= i < |bodies| ==> r[i] == heads[bodies[i]]
  {
    seq(|bodies|, i requires 0 <= i < |bodies| => heads[bodies[i]])
  }

  lemma {:induction false} FirstHeadlessIsComplete(bodies: seq<BodyId>, heads: map<BodyId, SnapshotId>)
    ensures FirstHeadless(bodies, heads).None? <==> forall b :: b in bodies ==> b in heads
    ensures FirstHeadless(bodies, heads).Some? ==>
              FirstHeadless(bodies, heads).value in bodies && FirstHeadless(bodies, heads).value !in heads
  {
    if bodies != [] {
      FirstHeadlessIsComplete(bodies[1..], heads);
      assert forall b :: b in bodies <==> b == bodies[0] || b in bodies[1..];
    }
  }

  /** The one head shared by bodies that already exist. */
  function SharedHead(id: FeatureId, bodies: seq<BodyId>,
                      heads: map<BodyId, SnapshotId>): Result<SnapshotId, HydrationError>
  {
    FirstHeadlessIsComplete(bodies, heads);
    match FirstHeadless(bodies, heads)
    case Some(body) => Failure(MissingBranchSnapshot(id, body))
    case None =>
      var inputs := Ordered(HeadsOf(bodies, heads));
      if |inputs| != 1 then Failure(DivergentBranchInputs(id, inputs)) else Success(inputs[0])
  }

  /** The input of a document-only feature on no body: what was committed if
      it is clean, what came before if it is dirty. */
  function MarkerInput(feature: FeatureNode, stage: Stage): Result<SnapshotId, HydrationError> {
    if feature.rebuild == Clean then
      match feature.committed
      case None => Failure(MissingCleanProvenance(feature.id))
      case Some(persisted) =>
        if persisted.input in stage.snapshots then Success(persisted.input)
        else Failure(SnapshotUnavailable(feature.id, persisted.input))
    else if stage.features == [] then Success(ZERO)
    else Success(stage.features[|stage.features| - 1].association.output)
  }

  function ReplayInput(tables: Tables, feature: FeatureNode, stage: Stage): Result<SnapshotId, HydrationError> {
    var branches := FeatureBranches(tables, feature);
    var creates := exists b :: b in branches && CreatedBy(tables, b, feature.id);
    var finds := exists b :: b in branches && !CreatedBy(tables, b, feature.id);
    if creates && finds then Failure(MixedRootAndExistingBranches(feature.id))
    else if creates then Success(ZERO)
    else if finds then SharedHead(feature.id, branches, stage.branchHeads)
    else if !feature.action.IsDocumentOnly() then Failure(KernelActionWithoutBody(feature.id))
    else MarkerInput(feature, stage)
  }

  // -- running a feature -----------------------------------------------------

  function ExecuteFeature(session: Session, id: FeatureId, input: Snapshot,
                          command: Command): Result<ExecutionOutcome, HydrationError>
  {
    match session.kernel.execute(id, input, input.PrecisionOr(session.rootPrecision), command)
    case Success(outcome) => Success(outcome)
    case Failure(error) => Failure(KernelFailure(id, error))
  }

  /** A chain's last outcome, each command run on the result before it. */
  function RunChain(session: Session, id: FeatureId, input: Snapshot,
                    chain: seq<Command>): Result<ExecutionOutcome, HydrationError>
    decreases |chain|
  {
    if chain == [] then Failure(KernelFailure(id, EmptyChain(input.id)))
    else
      var outcome :- ExecuteFeature(session, id, input, chain[0]);
      if |chain| == 1 then Success(outcome) else RunChain(session, id, outcome.snapshot, chain[1..])
  }

  /** What one feature's action amounts to before its result is recorded. */
  datatype ActionResult = ActionResult(
    association: SnapshotAssociation,
    report: Option<OperationReport>,
    output: Option<Snapshot>,
    commands: seq<Command>)

  datatype ResolvedAction =
    | RecordOnly
    | RunOne(concrete: Concrete)
    | RunMany(chain: seq<Command>)
    | Combine(tool: BodyId, operation: BooleanOperation)

  function AssociationFromReport(report: OperationReport): SnapshotAssociation {
    SnapshotAssociation(report.input, report.output, report.digest)
  }

  function BoundSketch(session: Session, id: FeatureId, recipe: Recipe, bind: bool): Result<Recipe, HydrationError>
    requires bind ==> session.parameters.Some?
  {
    if !bind then Success(recipe)
    else match session.resolvers.bindSketch(recipe, session.parameters.value)
         case Success(bound) => Success(bound)
         case Failure(message) => Failure(ParameterizedAction(id, message))
  }

  function ResolveSketch(session: Session, id: FeatureId, recipe: Recipe, bind: bool,
                         input: Snapshot): Result<ResolvedAction, HydrationError>
    requires bind ==> session.parameters.Some?
  {
    var bound :- BoundSketch(session, id, recipe, bind);
    match session.resolvers.resolveSketch(bound, session.tables, input.PrecisionOr(session.rootPrecision))
    case Success(concrete) => Success(RunOne(concrete))
    case Failure(error) => Failure(SketchRegion(id, error))
  }

  /** Parameters first, then the sketch regions they may have moved. */
  function ResolveAction(session: Session, feature: FeatureNode, input: Snapshot)
    : Result<ResolvedAction, HydrationError>
    requires feature.action.ReadsParameters() ==> session.parameters.Some?
  {
    match feature.action
    case Marker => Success(RecordOnly)
    case DatumPlane(_) => Success(RecordOnly)
    case DatumAxis(_) => Success(RecordOnly)
    case KernelCommand(command) => Success(RunOne(Plain(command)))
    case TargetedKernel(template) => Success(RunOne(Targeted(template)))
    case KernelChain(chain) => Success(RunMany(chain))
    case Boolean(_, tool, operation) => Success(Combine(tool, operation))
    case ParameterizedKernel(recipe) =>
      (match session.resolvers.bindKernel(recipe, session.parameters.value)
       case Success(concrete) => Success(RunOne(concrete))
       case Failure(message) => Failure(ParameterizedAction(feature.id, message)))
    case SketchRegionExtrusion(recipe, hasExpression) =>
      ResolveSketch(session, feature.id, recipe, hasExpression, input)
    case SketchRevolve(recipe, hasExpression) => ResolveSketch(session, feature.id, recipe, hasExpression, input)
    case SketchLoft(recipe) => ResolveSketch(session, feature.id, recipe, false, input)
    case SketchSweep(recipe) => ResolveSketch(session, feature.id, recipe, false, input)
  }

  /** The reports of the features that ran, in timeline order. */
  function OrderedReports(features: seq<HydratedFeature>): seq<FeatureReport> {
    if features == [] then []
    else
      var last := features[|features| - 1];
      OrderedReports(features[..|features| - 1]) +
      (if last.report.Some? then [FeatureReport(last.feature, last.report.value)] else [])
  }

  function RebindTarget(session: Session, id: FeatureId, concrete: Concrete, input: Snapshot,
                        stage: Stage): Result<Command, HydrationError>
  {
    match concrete
    case Plain(command) => Success(command)
    case Targeted(template) =>
      match session.resolvers.rebind(template, OrderedReports(stage.features), input.id)
      case Resolved(command) => Success(command)
      case Missing(reason) => Failure(PersistentTargetMissing(id, reason))
      case Ambiguous(reason) => Failure(PersistentTargetAmbiguous(id, reason))
  }

  function RunOneCommand(session: Session, id: FeatureId, concrete: Concrete, input: Snapshot,
                         stage: Stage): Result<ActionResult, HydrationError>
  {
    var command :- RebindTarget(session, id, concrete, input, stage);
    var outcome :- ExecuteFeature(session, id, input, command);
    Success(ActionResult(AssociationFromReport(outcome.report), Some(outcome.report), Some(outcome.snapshot),
                         [command]))
  }

  function RunBoolean(session: Session, id: FeatureId, tool: BodyId, operation: BooleanOperation,
                      input: Snapshot, stage: Stage): Result<ActionResult, HydrationError>
  {
    if tool !in stage.branchHeads then Failure(MissingBranchSnapshot(id, tool))
    else if stage.branchHeads[tool] !in stage.snapshots
    then Failure(SnapshotUnavailable(id, stage.branchHeads[tool]))
    else
      var toolSnapshot := stage.snapshots[stage.branchHeads[tool]];
      var precision := input.PrecisionOr(session.rootPrecision);
      match session.kernel.executeBoolean(id, input, toolSnapshot, precision, operation)
      case Success(outcome) =>
        Success(ActionResult(AssociationFromReport(outcome.report), Some(outcome.report), Some(outcome.snapshot), []))
      case Failure(error) => Failure(KernelFailure(id, error))
  }

  function RunAction(session: Session, id: FeatureId, action: ResolvedAction, input: Snapshot,
                     stage: Stage): Result<ActionResult, HydrationError>
  {
    match action
    case RecordOnly => Success(ActionResult(SnapshotAssociation(input.id, input.id, input.digest), None, None, []))
    case RunOne(concrete) => RunOneCommand(session, id, concrete, input, stage)
    case RunMany(chain) =>
      var outcome :- RunChain(session, id, input, chain);
      Success(ActionResult(SnapshotAssociation(input.id, outcome.report.output, outcome.report.digest),
                           Some(outcome.report), Some(outcome.snapshot), chain))
    case Combine(tool, operation) => RunBoolean(session, id, tool, operation, input, stage)
  }

  // -- one feature -----------------------------------------------------------

  function FirstUnavailable(dependencies: seq<FeatureId>, unavailable: set<FeatureId>): Option<FeatureId> {
    if dependencies == [] then None
    else if dependencies[0] in unavailable then Some(dependencies[0])
    else FirstUnavailable(dependencies[1..], unavailable)
  }

  /** The component a feature created; a later record replaces an earlier. */
  function ComponentOf(components: seq<Component>, feature: FeatureId): Option<Component> {
    if components == [] then None
    else if components[|components| - 1].createdBy == feature then Some(components[|components| - 1])
    else ComponentOf(components[..|components| - 1], feature)
  }

  function SkipReasonFor(tables: Tables, feature: FeatureNode, unavailable: set<FeatureId>): Option<SkipReason> {
    if feature.suppressed then Some(ExplicitSuppression)
    else
      match FirstUnavailable(feature.dependencies, unavailable)
      case Some(dependency) => Some(SuppressedDependency(dependency))
      case None =>
        match ComponentOf(tables.components, feature.id)
        case Some(component) => if component.suppressed then Some(SuppressedComponent(component.id)) else None
        case None => None
  }

  function VerifyProvenance(feature: FeatureNode,
                            replayed: SnapshotAssociation): Result<HydratedProvenance, HydrationError>
  {
    if feature.rebuild == Dirty then Success(Regenerated(feature.committed))
    else
      match feature.committed
      case None => Failure(MissingCleanProvenance(feature.id))
      case Some(persisted) =>
        if persisted != replayed then Failure(ProvenanceMismatch(feature.id, persisted, replayed))
        else Success(Verified)
  }

  function Advance(heads: map<BodyId, SnapshotId>, branches: seq<BodyId>, output: SnapshotId): map<BodyId, SnapshotId> {
    heads + (map b | b in branches :: output)
  }

  function Publish(snapshots: map<SnapshotId, Snapshot>, output: Option<Snapshot>): map<SnapshotId, Snapshot> {
    if output.None? || output.value.id in snapshots then snapshots else snapshots[output.value.id := output.value]
  }

  function Skip(stage: Stage, id: FeatureId, reason: SkipReason): Stage {
    stage.(unavailable := stage.unavailable + {id}, skipped := stage.skipped + [HydratedSkip(id, reason)])
  }

  function Record(stage: Stage, feature: FeatureNode, branches: seq<BodyId>, result: ActionResult,
                  provenance: HydratedProvenance): Stage
  {
    stage.(
    snapshots := Publish(stage.snapshots, result.output),
    branchHeads := Advance(stage.branchHeads, branches, result.association.output),
    features := stage.features +
      [HydratedFeature(feature.id, branches, result.association, result.report, provenance, result.commands)])
  }

  /** The result of running one feature that is not skipped. */
  function RunFeature(session: Session, stage: Stage, feature: FeatureNode): Result<ActionResult, HydrationError>
    requires feature.action.ReadsParameters() ==> session.parameters.Some?
  {
    var inputId :- ReplayInput(session.tables, feature, stage);
    if inputId !in stage.snapshots then Failure(SnapshotUnavailable(feature.id, inputId))
    else
      var input := stage.snapshots[inputId];
      var action :- ResolveAction(session, feature, input);
      RunAction(session, feature.id, action, input, stage)
  }

  function Step(session: Session, stage: Stage, feature: FeatureNode): Result<Stage, HydrationError>
    requires feature.action.ReadsParameters() ==> session.parameters.Some?
  {
    match SkipReasonFor(session.tables, feature, stage.unavailable)
    case Some(reason) => Success(Skip(stage, feature.id, reason))
    case None =>
      var result :- RunFeature(session, stage, feature);
      var provenance :- VerifyProvenance(feature, result.association);
      Success(Record(stage, feature, FeatureBranches(session.tables, feature), result, provenance))
  }

  // -- the whole timeline ----------------------------------------------------

  predicate ParametersReady(session: Session, features: seq<FeatureNode>) {
    forall i :: 0 <= i < |features| && features[i].action.ReadsParameters() ==> session.parameters.Some?
  }

  /** The stage after replaying these features from nothing. */
  function ReplayAll(session: Session, features: seq<FeatureNode>): Result<Stage, HydrationError>
    requires ParametersReady(session, features)
  {
    if features == [] then Success(EMPTY_STAGE)
    else
      var stage :- ReplayAll(session, features[..|features| - 1]);
      Step(session, stage, features[|features| - 1])
  }

  datatype Environment = Environment(kernel: Kernel, resolvers: Resolvers, rootPrecision: Precision)

  predicate AnyReadsParameters(features: seq<FeatureNode>) {
    exists i :: 0 <= i < |features| && features[i].action.ReadsParameters()
  }

  /** Parameters are evaluated only when an active recipe reads them. */
  function OpenSession(environment: Environment, tables: Tables,
                       active: seq<FeatureNode>): (r: Result<Session, HydrationError>)
    ensures r.Success? ==> ParametersReady(r.value, active) && r.value.tables == tables
  {
    if !AnyReadsParameters(active) then
      Success(Session(environment.kernel, environment.resolvers, tables, None, environment.rootPrecision))
    else
      match environment.resolvers.evaluateParameters(tables)
      case Success(parameters) =>
        Success(Session(environment.kernel, environment.resolvers, tables, Some(parameters), environment.rootPrecision))
      case Failure(message) => Failure(ParameterEvaluation(message))
  }

  function Ids(features: seq<FeatureNode>): (r: seq<FeatureId>)
    ensures |r| == |features| && forall i :: 0 <= i < |r| ==> r[i] == features[i].id
  {
    seq(|features|, i requires 0 <= i < |features| => features[i].id)
  }

  function Hydrate(environment: Environment, document: ModelDocument): Result<HydratedDocument, HydrationError>
    requires ValidCursor(document)
  {
    var active := document.features[..document.position];
    var session :- OpenSession(environment, document.tables, active);
    var stage :- ReplayAll(session, active);
    Success(HydratedDocument(document, stage.snapshots, stage.features, stage.branchHeads, stage.skipped,
                             Ids(document.features[document.position..])))
  }

  // -- the loops -------------------------------------------------------------

  lemma {:induction false} RunChainUnrolls(session: Session, id: FeatureId, input: Snapshot, chain: seq<Command>,
                                           done: nat, last: ExecutionOutcome)
    requires 0 < done < |chain|
    requires RunChain(session, id, input, chain[..done]) == Success(last)
    ensures RunChain(session, id, input, chain[..done + 1]) == ExecuteFeature(session, id, last.snapshot, chain[done])
    decreases done
  {
    var first := ExecuteFeature(session, id, input, chain[0]);
    assert chain[..done + 1][1..] == chain[1..done + 1];
    assert chain[..done][1..] == chain[1..done];
    if done > 1 {
      var rest := chain[1..];
      assert rest[..done - 1] == chain[1..done] && rest[..done] == chain[1..done + 1];
      RunChainUnrolls(session, id, first.value.snapshot, rest, done - 1, last);
    } else {
      assert chain[1..2] == [chain[1]];
    }
  }

  lemma {:induction false} RunChainStops(session: Session, id: FeatureId, input: Snapshot, chain: seq<Command>,
                                         done: nat)
    requires 0 < done <= |chain|
    requires RunChain(session, id, input, chain[..done]).Failure?
    ensures RunChain(session, id, input, chain) == RunChain(session, id, input, chain[..done])
    decreases done
  {
    var first := ExecuteFeature(session, id, input, chain[0]);
    assert chain[..done][1..] == chain[1..][..done - 1];
    if first.Success? && done > 1 {
      RunChainStops(session, id, first.value.snapshot, chain[1..], done - 1);
    }
  }

  /** Runs a chain, keeping only the last outcome. */
  method ExecuteChain(session: Session, id: FeatureId, input: Snapshot, chain: seq<Command>)
    returns (r: Result<ExecutionOutcome, HydrationError>)
    ensures r == RunChain(session, id, input, chain)
  {
    if chain == [] {
      return Failure(KernelFailure(id, EmptyChain(input.id)));
    }
    r := ExecuteFeature(session, id, input, chain[0]);
    assert chain[..1] == [chain[0]];
    var done := 1;
    while done < |chain| && r.Success?
      invariant 1 <= done <= |chain|
      invariant r == RunChain(session, id, input, chain[..done])
    {
      RunChainUnrolls(session, id, input, chain, done, r.value);
      r := ExecuteFeature(session, id, r.value.snapshot, chain[done]);
      done := done + 1;
    }
    if r.Failure? {
      RunChainStops(session, id, input, chain, done);
    } else {
      assert chain[..done] == chain;
    }
  }

  /** Sorts the branches into those the feature creates and those it finds,
      and reads the one snapshot they share. */
  method FindReplayInput(tables: Tables, feature: FeatureNode, branches: seq<BodyId>, stage: Stage)
    returns (r: Result<SnapshotId, HydrationError>)
    requires branches == FeatureBranches(tables, feature)
    ensures r == ReplayInput(tables, feature, stage)
  {
    var existing, created := [], 0;
    for i := 0 to |branches|
      invariant created > 0 <==> exists b :: b in branches[..i] && CreatedBy(tables, b, feature.id)
      invariant existing != [] <==> exists b :: b in branches[..i] && !CreatedBy(tables, b, feature.id)
      invariant created == 0 ==> existing == branches[..i]
    {
      assert branches[..i + 1] == branches[..i] + [branches[i]];
      if CreatedBy(tables, branches[i], feature.id) {
        created := created + 1;
      } else {
        existing := existing + [branches[i]];
      }
    }
    assert branches[..|branches|] == branches;
    if created > 0 && existing != [] {
      return Failure(MixedRootAndExistingBranches(feature.id));
    }
    if created > 0 {
      return Success(ZERO);
    }
    if existing != [] {
      return SharedHead(feature.id, existing, stage.branchHeads);
    }
    if !feature.action.IsDocumentOnly() {
      return Failure(KernelActionWithoutBody(feature.id));
    }
    return MarkerInput(feature, stage);
  }

  /** Rebuilds a document into an unpublished runtime, one active feature at
      a time. */
  method HydrateModelDocument(environment: Environment, document: ModelDocument)
    returns (r: Result<HydratedDocument, HydrationError>)
    requires ValidCursor(document)
    ensures r == Hydrate(environment, document)
  {
    var active := document.features[..document.position];
    var session :- OpenSession(environment, document.tables, active);
    var stage := EMPTY_STAGE;
    for n := 0 to |active|
      invariant ReplayAll(session, active[..n]) == Success(stage)
    {
      var feature := active[n];
      assert active[..n + 1][..n] == active[..n];
      var outcome := ReplayFeature(session, stage, feature);
      if outcome.Failure? {
        ReplayFailureSticks(session, active, n + 1);
        return Failure(outcome.error);
      }
      stage := outcome.value;
    }
    assert active[..|active|] == active;
    return Success(HydratedDocument(document, stage.snapshots, stage.features, stage.branchHeads, stage.skipped,
                                    Ids(document.features[document.position..])));
  }

  /** Finds the input of a feature and runs what it resolves to. */
  method ExecuteAction(session: Session, stage: Stage, feature: FeatureNode, branches: seq<BodyId>)
    returns (r: Result<ActionResult, HydrationError>)
    requires feature.action.ReadsParameters() ==> session.parameters.Some?
    requires branches == FeatureBranches(session.tables, feature)
    ensures r == RunFeature(session, stage, feature)
  {
    var inputId :- FindReplayInput(session.tables, feature, branches, stage);
    if inputId !in stage.snapshots {
      return Failure(SnapshotUnavailable(feature.id, inputId));
    }
    var input := stage.snapshots[inputId];
    var action :- ResolveAction(session, feature, input);
    if !action.RunMany? {
      return RunAction(session, feature.id, action, input, stage);
    }
    var outcome :- ExecuteChain(session, feature.id, input, action.chain);
    return Success(ActionResult(SnapshotAssociation(input.id, outcome.report.output, outcome.report.digest),
                                Some(outcome.report), Some(outcome.snapshot), action.chain));
  }

  /** Moves the head of every branch to one output. */
  method AdvanceHeads(heads: map<BodyId, SnapshotId>, branches: seq<BodyId>, output: SnapshotId)
    returns (r: map<BodyId, SnapshotId>)
    ensures r == Advance(heads, branches, output)
  {
    r := heads;
    for i := 0 to |branches|
      invariant r == Advance(heads, branches[..i], output)
    {
      assert branches[..i + 1] == branches[..i] + [branches[i]];
      r := r[branches[i] := output];
    }
    assert branches[..|branches|] == branches;
  }

  /** Replays one feature: archive, heads and list are updated in turn. */
  method ReplayFeature(session: Session, stage: Stage, feature: FeatureNode) returns (r: Result<Stage, HydrationError>)
    requires feature.action.ReadsParameters() ==> session.parameters.Some?
    ensures r == Step(session, stage, feature)
  {
    var skipReason := SkipReasonFor(session.tables, feature, stage.unavailable);
    if skipReason.Some? {
      return Success(Skip(stage, feature.id, skipReason.value));
    }
    var branches := FeatureBranches(session.tables, feature);
    var result :- ExecuteAction(session, stage, feature, branches);
    var snapshots := Publish(stage.snapshots, result.output);
    var heads := AdvanceHeads(stage.branchHeads, branches, result.association.output);
    var provenance :- VerifyProvenance(feature, result.association);
    var hydrated := HydratedFeature(feature.id, branches, result.association, result.report, provenance,
                                    result.commands);
    return Success(stage.(snapshots := snapshots, branchHeads := heads, features := stage.features + [hydrated]));
  }

  /** A prefix that fails to replay decides the outcome of the whole. */
  lemma {:induction false} ReplayFailureSticks(session: Session, features: seq<FeatureNode>, n: nat)
    requires n <= |features| && ParametersReady(session, features)
    requires ReplayAll(session, features[..n]).Failure?
    ensures ReplayAll(session, features) == ReplayAll(session, features[..n])
    decreases |features| - n
  {
    if n == |features| {
      assert features[..n] == features;
    } else {
      assert features[..n + 1][..n] == features[..n];
      ReplayFailureSticks(session, features, n + 1);
    }
  }
}
