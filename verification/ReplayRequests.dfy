/**
  What replay asks of the kernel and the resolvers: for every feature a
  hydration holds, the bodies it acted on, the snapshot it started from, the
  request that made its result, and how the result met the record.
*/
module ReplayRequests {
  import opened Results
  import opened Document
  import opened Replay
  import opened ReplayTimeline
  import opened ReplayFixpoint
  import opened ReplayProvenance

  // -- one request -----------------------------------------------------------

  /** A snapshot's own policy, or the root's if it has none. */
  function Policy(input: Snapshot, root: Precision): Precision {
    match input.precision
    case Some(own) => own
    case None => root
  }

  /** The recorded result is what the kernel made of one command. */
  ghost predicate Ran(environment: Environment, content: SnapshotId -> Snapshot, f: HydratedFeature, command: Command) {
    var input := content(f.association.input);
    && f.commands == [command]
    && f.report.Some? && f.report.value.digest == f.association.digest
    && environment.kernel.execute(f.feature, input, Policy(input, environment.rootPrecision), command) ==
       Success(ExecutionOutcome(content(f.association.output), f.report.value))
  }

  /** Outcome `k` is command `k`'s, run on the snapshot before it. */
  ghost predicate RanAt(environment: Environment, id: FeatureId, input: Snapshot, chain: seq<Command>,
                        outcomes: seq<ExecutionOutcome>, k: nat)
    requires k < |outcomes| == |chain|
  {
    var from := if k == 0 then input else outcomes[k - 1].snapshot;
    environment.kernel.execute(id, from, Policy(from, environment.rootPrecision), chain[k]) == Success(outcomes[k])
  }

  /** These outcomes are the commands' in turn. */
  ghost predicate RanInTurn(environment: Environment, id: FeatureId, input: Snapshot, chain: seq<Command>,
                            outcomes: seq<ExecutionOutcome>)
  {
    |outcomes| == |chain| > 0 && forall k :: 0 <= k < |chain| ==> RanAt(environment, id, input, chain, outcomes, k)
  }

  ghost predicate RanChain(environment: Environment, content: SnapshotId -> Snapshot, f: HydratedFeature,
                           chain: seq<Command>)
  {
    && f.commands == chain
    && f.report.Some? && f.report.value.digest == f.association.digest
    && exists outcomes ::
         && RanInTurn(environment, f.feature, content(f.association.input), chain, outcomes)
         && outcomes[|chain| - 1] == ExecutionOutcome(content(f.association.output), f.report.value)
  }

  /** These are the reports of the features that ran, each once, in order. */
  ghost predicate ListsReports(features: seq<HydratedFeature>, at: seq<nat>, reports: seq<FeatureReport>) {
    && |at| == |reports|
    && (forall j, k :: 0 <= j < k < |at| ==> at[j] < at[k])
    && (forall k :: 0 <= k < |at| ==>
          && at[k] < |features| && features[at[k]].report.Some?
          && reports[k] == FeatureReport(features[at[k]].feature, features[at[k]].report.value))
    && (forall i: nat :: i < |features| && features[i].report.Some? ==> i in at)
  }

  /** A persistent target was found in the reports of the features before. */
  ghost predicate RanTargeted(environment: Environment, content: SnapshotId -> Snapshot, before: seq<HydratedFeature>,
                              f: HydratedFeature, template: Template)
  {
    exists at, reports, command ::
      && ListsReports(before, at, reports)
      && environment.resolvers.rebind(template, reports, f.association.input) == Resolved(command)
      && Ran(environment, content, f, command)
  }

  ghost predicate RanConcrete(environment: Environment, content: SnapshotId -> Snapshot, before: seq<HydratedFeature>,
                              f: HydratedFeature, concrete: Concrete)
  {
    match concrete
    case Plain(command) => Ran(environment, content, f, command)
    case Targeted(template) => RanTargeted(environment, content, before, f, template)
  }

  /** The recipe with the document's parameters put in, when it reads any. */
  ghost predicate BoundTo(environment: Environment, tables: Tables, recipe: Recipe, bind: bool, bound: Recipe) {
    if !bind then bound == recipe
    else
      var parameters := environment.resolvers.evaluateParameters(tables);
      parameters.Success? && environment.resolvers.bindSketch(recipe, parameters.value) == Success(bound)
  }

  /** A sketch recipe was bound first and its regions found in the result. */
  ghost predicate RanSketch(environment: Environment, tables: Tables, content: SnapshotId -> Snapshot,
                            before: seq<HydratedFeature>, f: HydratedFeature, recipe: Recipe, bind: bool)
  {
    var policy := Policy(content(f.association.input), environment.rootPrecision);
    exists bound, concrete ::
      && BoundTo(environment, tables, recipe, bind, bound)
      && environment.resolvers.resolveSketch(bound, tables, policy) == Success(concrete)
      && RanConcrete(environment, content, before, f, concrete)
  }

  ghost predicate RanParameterized(environment: Environment, tables: Tables, content: SnapshotId -> Snapshot,
                                   before: seq<HydratedFeature>, f: HydratedFeature, recipe: Recipe)
  {
    var parameters := environment.resolvers.evaluateParameters(tables);
    && parameters.Success?
    && environment.resolvers.bindKernel(recipe, parameters.value).Success?
    && RanConcrete(environment, content, before, f,
                   environment.resolvers.bindKernel(recipe, parameters.value).value)
  }

  /** The target's snapshot was combined with what the latest feature on the
      tool body left there. */
  ghost predicate RanBoolean(environment: Environment, content: SnapshotId -> Snapshot, before: seq<HydratedFeature>,
                             f: HydratedFeature, tool: BodyId, operation: BooleanOperation)
  {
    var input, u := content(f.association.input), LastWriter(before, tool);
    && f.commands == []
    && f.report.Some? && f.report.value.digest == f.association.digest
    && u >= 0
    && environment.kernel.executeBoolean(f.feature, input, content(before[u].association.output),
                                         Policy(input, environment.rootPrecision), operation) ==
       Success(ExecutionOutcome(content(f.association.output), f.report.value))
  }

  /** Nothing ran: the feature ends where it starts. */
  ghost predicate OnlyRecorded(content: SnapshotId -> Snapshot, f: HydratedFeature) {
    && f.commands == [] && f.report == None
    && f.association.output == f.association.input
    && f.association.digest == content(f.association.input).digest
  }

  /** The request a feature stands for was made, and its answer recorded. */
  ghost predicate Requested(environment: Environment, tables: Tables, content: SnapshotId -> Snapshot,
                            node: FeatureNode, before: seq<HydratedFeature>, f: HydratedFeature)
  {
    match node.action
    case Marker => OnlyRecorded(content, f)
    case DatumPlane(_) => OnlyRecorded(content, f)
    case DatumAxis(_) => OnlyRecorded(content, f)
    case KernelCommand(command) => Ran(environment, content, f, command)
    case TargetedKernel(template) => RanTargeted(environment, content, before, f, template)
    case ParameterizedKernel(recipe) => RanParameterized(environment, tables, content, before, f, recipe)
    case SketchRegionExtrusion(recipe, bind) => RanSketch(environment, tables, content, before, f, recipe, bind)
    case SketchRevolve(recipe, bind) => RanSketch(environment, tables, content, before, f, recipe, bind)
    case SketchLoft(recipe) => RanSketch(environment, tables, content, before, f, recipe, false)
    case SketchSweep(recipe) => RanSketch(environment, tables, content, before, f, recipe, false)
    case KernelChain(chain) => RanChain(environment, content, f, chain)
    case Boolean(_, tool, operation) => RanBoolean(environment, content, before, f, tool, operation)
  }

  // -- branches, input and record --------------------------------------------

  /** A body the feature reads, directly or under a sketch, or makes. */
  ghost predicate Names(tables: Tables, node: FeatureNode, body: BodyId) {
    || InputBody(body) in node.inputs
    || OutputBody(body) in node.outputs
    || (exists s :: InputSketch(s) in node.inputs && s in tables.sketches &&
                    tables.sketches[s].supportBody == Some(body))
  }

  /** A Boolean acts on its target; any other feature on the bodies it names,
      in ascending order. */
  ghost predicate ActsOn(tables: Tables, node: FeatureNode, branches: seq<BodyId>) {
    if node.action.Boolean? then branches == [node.action.target]
    else Ascending(branches) && forall b :: b in branches <==> Names(tables, node, b)
  }

  /** Where a feature on no body starts: a clean one where its record says, a
      dirty one where the feature before it ended. */
  ghost predicate StartsWithoutBody(node: FeatureNode, before: seq<HydratedFeature>, f: HydratedFeature) {
    f.branches == [] ==>
      && (node.action.Marker? || node.action.DatumPlane? || node.action.DatumAxis?)
      && (if node.rebuild == Clean then node.committed.Some? && node.committed.value.input == f.association.input
          else f.association.input == if before == [] then ZERO else before[|before| - 1].association.output)
  }

  /** A clean feature's record is what replay made of it; a dirty one keeps
      its old record aside. */
  ghost predicate MeetsRecord(node: FeatureNode, f: HydratedFeature) {
    && (f.provenance == Verified <==> node.rebuild == Clean)
    && (node.rebuild == Clean ==> node.committed == Some(f.association))
    && (node.rebuild == Dirty ==> f.provenance == Regenerated(node.committed))
  }

  ghost predicate Explains(environment: Environment, tables: Tables, content: SnapshotId -> Snapshot,
                           node: FeatureNode, before: seq<HydratedFeature>, f: HydratedFeature)
  {
    && node.id == f.feature
    && ActsOn(tables, node, f.branches)
    && StartsWithoutBody(node, before, f)
    && Requested(environment, tables, content, node, before, f)
    && MeetsRecord(node, f)
  }

  // -- one step --------------------------------------------------------------

  /** The session is the environment's, with the parameters of the tables. */
  ghost predicate OpenedBy(environment: Environment, tables: Tables, session: Session) {
    && session.kernel == environment.kernel && session.resolvers == environment.resolvers
    && session.tables == tables && session.rootPrecision == environment.rootPrecision
    && (session.parameters.Some? ==>
          environment.resolvers.evaluateParameters(tables) == Success(session.parameters.value))
  }

  lemma PolicyIs(input: Snapshot, root: Precision)
    ensures input.PrecisionOr(root) == Policy(input, root)
  {
  }

  lemma ListedWithout(features: seq<HydratedFeature>, at: seq<nat>, reports: seq<FeatureReport>, last: HydratedFeature)
    requires ListsReports(features, at, reports) && last.report.None?
    ensures ListsReports(features + [last], at, reports)
  {
  }

  lemma ListedWith(features: seq<HydratedFeature>, at: seq<nat>, reports: seq<FeatureReport>, last: HydratedFeature)
    requires ListsReports(features, at, reports) && last.report.Some?
    ensures ListsReports(features + [last], at + [|features|],
                         reports + [FeatureReport(last.feature, last.report.value)])
  {
    var longer := at + [|features|];
    assert longer[|at|] == |features|;
    forall i: nat | i < |features| && features[i].report.Some? ensures i in longer {
      assert i in at;
    }
  }

  lemma {:induction false} OrderedReportsList(features: seq<HydratedFeature>) returns (at: seq<nat>)
    ensures ListsReports(features, at, OrderedReports(features))
  {
    at := [];
    if features != [] {
      var init, last := features[..|features| - 1], features[|features| - 1];
      at := OrderedReportsList(init);
      assert features == init + [last];
      if last.report.Some? {
        ListedWith(init, at, OrderedReports(init), last);
        at := at + [|init|];
      } else {
        ListedWithout(init, at, OrderedReports(init), last);
        assert OrderedReports(features) == OrderedReports(init);
      }
    }
  }

  lemma {:induction false} ChainRanInTurn(session: Session, environment: Environment, id: FeatureId, input: Snapshot,
                                          chain: seq<Command>) returns (outcomes: seq<ExecutionOutcome>)
    requires OpenedBy(environment, session.tables, session) && RunChain(session, id, input, chain).Success?
    ensures RanInTurn(environment, id, input, chain, outcomes)
    ensures outcomes[|chain| - 1] == RunChain(session, id, input, chain).value
    decreases |chain|
  {
    var first := ExecuteFeature(session, id, input, chain[0]).value;
    PolicyIs(input, session.rootPrecision);
    outcomes := [first];
    if |chain| > 1 {
      var rest := ChainRanInTurn(session, environment, id, first.snapshot, chain[1..]);
      outcomes := [first] + rest;
      forall k | 0 < k < |chain| ensures RanAt(environment, id, input, chain, outcomes, k) {
        assert RanAt(environment, id, first.snapshot, chain[1..], rest, k - 1);
      }
    }
  }

  /** The result a run records, as the feature it becomes. */
  ghost predicate Becomes(content: SnapshotId -> Snapshot, input: Snapshot, result: ActionResult, f: HydratedFeature) {
    && f.association == result.association && f.report == result.report && f.commands == result.commands
    && content(input.id) == input
  }

  lemma OneCommandRan(session: Session, environment: Environment, content: SnapshotId -> Snapshot, input: Snapshot,
                      concrete: Concrete, stage: Stage, result: ActionResult, f: HydratedFeature)
    requires OpenedBy(environment, session.tables, session) && KernelContract(session.kernel, content)
    requires RunOneCommand(session, f.feature, concrete, input, stage) == Success(result)
    requires Becomes(content, input, result, f)
    ensures RanConcrete(environment, content, stage.features, f, concrete)
  {
    var command := RebindTarget(session, f.feature, concrete, input, stage).value;
    var outcome := ExecuteFeature(session, f.feature, input, command).value;
    PolicyIs(input, session.rootPrecision);
    assert HonestOutcome(input, outcome, content);
    assert Ran(environment, content, f, command);
    if concrete.Targeted? {
      var at := OrderedReportsList(stage.features);
    }
  }

  lemma BooleanRan(session: Session, environment: Environment, content: SnapshotId -> Snapshot, input: Snapshot,
                   tool: BodyId, operation: BooleanOperation, stage: Stage, result: ActionResult, f: HydratedFeature)
    requires OpenedBy(environment, session.tables, session) && KernelContract(session.kernel, content)
    requires Archived(stage, content) && HeadsAreLast(stage.features, stage.branchHeads)
    requires RunBoolean(session, f.feature, tool, operation, input, stage) == Success(result)
    requires Becomes(content, input, result, f)
    ensures RanBoolean(environment, content, stage.features, f, tool, operation)
  {
    var toolSnapshot := stage.snapshots[stage.branchHeads[tool]];
    PolicyIs(input, session.rootPrecision);
    var asked := session.kernel.executeBoolean(f.feature, input, toolSnapshot,
                                               input.PrecisionOr(session.rootPrecision), operation);
    assert HonestOutcome(input, asked.value, content);
  }

  lemma ChainRan(session: Session, environment: Environment, content: SnapshotId -> Snapshot, input: Snapshot,
                 chain: seq<Command>, stage: Stage, result: ActionResult, f: HydratedFeature)
    requires OpenedBy(environment, session.tables, session) && KernelContract(session.kernel, content)
    requires RunAction(session, f.feature, RunMany(chain), input, stage) == Success(result)
    requires Becomes(content, input, result, f)
    ensures RanChain(environment, content, f, chain)
  {
    var outcomes := ChainRanInTurn(session, environment, f.feature, input, chain);
    ChainIsHonest(session, content, f.feature, input, chain);
  }

  lemma SketchRan(session: Session, environment: Environment, content: SnapshotId -> Snapshot, input: Snapshot,
                  recipe: Recipe, bind: bool, stage: Stage, result: ActionResult, f: HydratedFeature)
    requires OpenedBy(environment, session.tables, session) && KernelContract(session.kernel, content)
    requires bind ==> session.parameters.Some?
    requires var action := ResolveSketch(session, f.feature, recipe, bind, input);
             action.Success? && RunAction(session, f.feature, action.value, input, stage) == Success(result)
    requires Becomes(content, input, result, f) && f.association.input == input.id
    ensures RanSketch(environment, session.tables, content, stage.features, f, recipe, bind)
  {
    var bound := BoundSketch(session, f.feature, recipe, bind).value;
    var concrete := ResolveSketch(session, f.feature, recipe, bind, input).value.concrete;
    PolicyIs(input, session.rootPrecision);
    assert BoundTo(environment, session.tables, recipe, bind, bound);
    OneCommandRan(session, environment, content, input, concrete, stage, result, f);
  }

  /** Every action's run makes the request the action stands for. */
  lemma ActionRequested(session: Session, environment: Environment, content: SnapshotId -> Snapshot,
                        node: FeatureNode, input: Snapshot, action: ResolvedAction, stage: Stage,
                        result: ActionResult, f: HydratedFeature)
    requires OpenedBy(environment, session.tables, session) && KernelContract(session.kernel, content)
    requires Archived(stage, content) && HeadsAreLast(stage.features, stage.branchHeads)
    requires node.action.ReadsParameters() ==> session.parameters.Some?
    requires node.id == f.feature && ResolveAction(session, node, input) == Success(action)
    requires RunAction(session, f.feature, action, input, stage) == Success(result)
    requires Becomes(content, input, result, f) && f.association.input == input.id
    ensures Requested(environment, session.tables, content, node, stage.features, f)
  {
    match node.action
    case KernelCommand(_) => OneCommandRan(session, environment, content, input, action.concrete, stage, result, f);
    case TargetedKernel(_) => OneCommandRan(session, environment, content, input, action.concrete, stage, result, f);
    case ParameterizedKernel(_) =>
      OneCommandRan(session, environment, content, input, action.concrete, stage, result, f);
    case SketchRegionExtrusion(recipe, bind) =>
      SketchRan(session, environment, content, input, recipe, bind, stage, result, f);
    case SketchRevolve(recipe, bind) =>
      SketchRan(session, environment, content, input, recipe, bind, stage, result, f);
    case SketchLoft(recipe) => SketchRan(session, environment, content, input, recipe, false, stage, result, f);
    case SketchSweep(recipe) => SketchRan(session, environment, content, input, recipe, false, stage, result, f);
    case KernelChain(chain) => ChainRan(session, environment, content, input, chain, stage, result, f);
    case Boolean(_, tool, operation) =>
      BooleanRan(session, environment, content, input, tool, operation, stage, result, f);
    case _ =>
  }

  lemma {:induction false} InputBodiesNamed(tables: Tables, inputs: seq<FeatureInput>, body: BodyId)
    ensures body in InputBodies(tables, inputs) <==>
            InputBody(body) in inputs ||
            exists s :: InputSketch(s) in inputs && s in tables.sketches &&
                        tables.sketches[s].supportBody == Some(body)
  {
    if inputs != [] {
      InputBodiesNamed(tables, inputs[1..], body);
      assert inputs == [inputs[0]] + inputs[1..];
    }
  }

  lemma {:induction false} OutputBodiesNamed(outputs: seq<FeatureOutput>, body: BodyId)
    ensures body in OutputBodies(outputs) <==> OutputBody(body) in outputs
  {
    if outputs != [] {
      OutputBodiesNamed(outputs[1..], body);
      assert outputs == [outputs[0]] + outputs[1..];
    }
  }

  /** The branches of a feature are the bodies it names. */
  lemma BranchesAreNamed(tables: Tables, node: FeatureNode)
    ensures ActsOn(tables, node, FeatureBranches(tables, node))
  {
    var bodies := InputBodies(tables, node.inputs) + OutputBodies(node.outputs);
    OrderedIsTheOrderedSet(bodies);
    forall b ensures b in bodies <==> Names(tables, node, b) {
      InputBodiesNamed(tables, node.inputs, b);
      OutputBodiesNamed(node.outputs, b);
    }
  }

  lemma StepExplains(session: Session, environment: Environment, content: SnapshotId -> Snapshot, before: Stage,
                     node: FeatureNode, after: Stage)
    requires OpenedBy(environment, session.tables, session) && KernelContract(session.kernel, content)
    requires Chained(session, content, before)
    requires node.action.ReadsParameters() ==> session.parameters.Some?
    requires Step(session, before, node) == Success(after)
    requires SkipReasonFor(session.tables, node, before.unavailable).None?
    ensures |after.features| == |before.features| + 1
    ensures after.features[..|before.features|] == before.features
    ensures Explains(environment, session.tables, content, node, before.features, after.features[|before.features|])
  {
    StepRecords(session, before, node, after);
    var result := RunFeature(session, before, node).value;
    var f := after.features[|before.features|];
    var input := before.snapshots[ReplayInput(session.tables, node, before).value];
    var action := ResolveAction(session, node, input).value;
    BranchesAreNamed(session.tables, node);
    RecordedResult(session, content, before, node, result);
    ActionRequested(session, environment, content, node, input, action, before, result, f);
  }

  // -- the whole run ---------------------------------------------------------

  /** Some node of the timeline explains this feature by those before it. */
  ghost predicate Explained(environment: Environment, tables: Tables, content: SnapshotId -> Snapshot,
                            nodes: seq<FeatureNode>, features: seq<HydratedFeature>, i: nat)
    requires i < |features|
  {
    exists n :: 0 <= n < |nodes| && Explains(environment, tables, content, nodes[n], features[..i], features[i])
  }

  lemma ExplainedStill(environment: Environment, tables: Tables, content: SnapshotId -> Snapshot,
                       nodes: seq<FeatureNode>, longer: seq<FeatureNode>, features: seq<HydratedFeature>,
                       more: seq<HydratedFeature>, i: nat)
    requires i < |features| && nodes <= longer && features <= more
    requires Explained(environment, tables, content, nodes, features, i)
    ensures Explained(environment, tables, content, longer, more, i)
  {
    var n :| 0 <= n < |nodes| && Explains(environment, tables, content, nodes[n], features[..i], features[i]);
    assert more[..i] == features[..i] && longer[n] == nodes[n];
  }

  lemma {:induction false} ReplayExplains(session: Session, environment: Environment, content: SnapshotId -> Snapshot,
                                          nodes: seq<FeatureNode>, stage: Stage)
    requires OpenedBy(environment, session.tables, session) && KernelContract(session.kernel, content)
    requires ParametersReady(session, nodes) && ReplayAll(session, nodes) == Success(stage)
    ensures forall i :: 0 <= i < |stage.features| ==>
              Explained(environment, session.tables, content, nodes, stage.features, i)
    decreases |nodes|
  {
    if nodes != [] {
      var init, last := nodes[..|nodes| - 1], nodes[|nodes| - 1];
      var before := ReplayAll(session, init).value;
      ReplayExplains(session, environment, content, init, before);
      ReplayChains(session, content, init, before);
      if SkipReasonFor(session.tables, last, before.unavailable).None? {
        StepExplains(session, environment, content, before, last, stage);
        assert Explained(environment, session.tables, content, nodes, stage.features, |before.features|);
      }
      assert before.features <= stage.features;
      forall i | 0 <= i < |before.features|
        ensures Explained(environment, session.tables, content, nodes, stage.features, i)
      {
        ExplainedStill(environment, session.tables, content, init, nodes, before.features, stage.features, i);
      }
    }
  }

  lemma SessionIsOpened(environment: Environment, document: ModelDocument, session: Session)
    requires ValidCursor(document)
    requires OpenSession(environment, document.tables, document.features[..document.position]) == Success(session)
    ensures OpenedBy(environment, document.tables, session)
  {
  }

  /** In every successful hydration each feature acted on the bodies its node
      names, started where it should, made the request its action stands for
      and holds the answer, and met its record if it was clean. */
  lemma HydrationIsExplained(environment: Environment, content: SnapshotId -> Snapshot, document: ModelDocument,
                             hydrated: HydratedDocument, i: nat, n: nat)
    requires KernelContract(environment.kernel, content)
    requires ValidDocument(document) && Hydrate(environment, document) == Success(hydrated)
    requires i < |hydrated.features| && n < document.position
    requires document.features[n].id == hydrated.features[i].feature
    ensures var node, f, before := document.features[n], hydrated.features[i], hydrated.features[..i];
            && ActsOn(document.tables, node, f.branches)
            && StartsWithoutBody(node, before, f)
            && Requested(environment, document.tables, content, node, before, f)
            && MeetsRecord(node, f)
  {
    var session, stage := HydrationRun(environment, document, hydrated);
    var active := document.features[..document.position];
    SessionIsOpened(environment, document, session);
    ReplayExplains(session, environment, content, active, stage);
    assert Explained(environment, document.tables, content, active, hydrated.features, i);
    var m :| 0 <= m < |active| &&
             Explains(environment, document.tables, content, active[m], hydrated.features[..i], hydrated.features[i]);
    assert m == n;
  }
}
