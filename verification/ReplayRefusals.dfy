/**
  Why replay refuses a document: for every refusal, the fact about the
  document, the kernel or the resolvers that it reports.
*/
module ReplayRefusals {
  import opened Results
  import opened Document
  import opened Replay
  import opened ReplayTimeline
  import opened ReplayFixpoint
  import opened ReplayProvenance
  import opened ReplayRequests

  // -- the input -------------------------------------------------------------

  /** The feature acts on this body. */
  ghost predicate Acts(tables: Tables, node: FeatureNode, body: BodyId) {
    if node.action.Boolean? then body == node.action.target else Names(tables, node, body)
  }

  ghost predicate ActsOnNone(tables: Tables, node: FeatureNode) {
    forall b :: !Acts(tables, node, b)
  }

  /** The action reads the document's parameters. */
  predicate Parametric(action: ReplayAction) {
    match action
    case ParameterizedKernel(_) => true
    case SketchRegionExtrusion(_, hasExpression) => hasExpression
    case SketchRevolve(_, hasExpression) => hasExpression
    case _ => false
  }

  predicate DocumentOnly(action: ReplayAction) {
    action.Marker? || action.DatumPlane? || action.DatumAxis?
  }

  /** Where a feature starts: at nothing if it creates its bodies, at the one
      head of those it finds, or, on no body, where its record or the feature
      before it says. */
  ghost predicate StartsAt(tables: Tables, node: FeatureNode, features: seq<HydratedFeature>,
                           heads: map<BodyId, SnapshotId>, input: SnapshotId)
  {
    if ActsOnNone(tables, node) then
      && DocumentOnly(node.action)
      && (if node.rebuild == Clean then node.committed.Some? && node.committed.value.input == input
          else input == if features == [] then ZERO else features[|features| - 1].association.output)
    else
      || (input == ZERO && forall b :: Acts(tables, node, b) ==> CreatedBy(tables, b, node.id))
      || (forall b :: Acts(tables, node, b) ==>
            !CreatedBy(tables, b, node.id) && b in heads && heads[b] == input)
  }

  /** No input was found, and this is why. */
  ghost predicate InputRefused(tables: Tables, node: FeatureNode, snapshots: map<SnapshotId, Snapshot>,
                               heads: map<BodyId, SnapshotId>, e: HydrationError)
  {
    match e
    case MixedRootAndExistingBranches(id) =>
      id == node.id && exists b, c :: Acts(tables, node, b) && CreatedBy(tables, b, id) &&
                                      Acts(tables, node, c) && !CreatedBy(tables, c, id)
    case MissingBranchSnapshot(id, b) => id == node.id && Acts(tables, node, b) && b !in heads
    case DivergentBranchInputs(id, inputs) =>
      && id == node.id && Ascending(inputs) && |inputs| >= 2
      && (forall b :: Acts(tables, node, b) ==> b in heads && heads[b] in inputs)
      && (forall x :: x in inputs ==> HeadOfOne(tables, node, heads, x))
    case KernelActionWithoutBody(id) => id == node.id && ActsOnNone(tables, node) && !DocumentOnly(node.action)
    case MissingCleanProvenance(id) => id == node.id && node.rebuild == Clean && node.committed.None?
    case SnapshotUnavailable(id, s) =>
      && id == node.id && ActsOnNone(tables, node) && node.rebuild == Clean
      && node.committed.Some? && node.committed.value.input == s && s !in snapshots
    case _ => false
  }

  ghost predicate HeadOfOne(tables: Tables, node: FeatureNode, heads: map<BodyId, SnapshotId>, x: SnapshotId) {
    exists b :: Acts(tables, node, b) && b in heads && heads[b] == x
  }

  lemma BranchesAct(tables: Tables, node: FeatureNode, b: BodyId)
    ensures b in FeatureBranches(tables, node) <==> Acts(tables, node, b)
  {
    BranchesAreNamed(tables, node);
  }

  lemma SharedHeadRefused(id: FeatureId, bodies: seq<BodyId>, heads: map<BodyId, SnapshotId>, e: HydrationError)
    requires bodies != [] && SharedHead(id, bodies, heads) == Failure(e)
    ensures match e
            case MissingBranchSnapshot(f, b) => f == id && b in bodies && b !in heads
            case DivergentBranchInputs(f, inputs) =>
              && f == id && Ascending(inputs) && |inputs| >= 2
              && (forall b :: b in bodies ==> b in heads && heads[b] in inputs)
              && (forall x :: x in inputs ==> exists b :: b in bodies && b in heads && heads[b] == x)
            case _ => false
  {
    FirstHeadlessIsComplete(bodies, heads);
    if e.DivergentBranchInputs? {
      var values := HeadsOf(bodies, heads);
      OrderedIsTheOrderedSet(values);
      forall b | b in bodies ensures heads[b] in e.snapshots {
        var i :| 0 <= i < |bodies| && bodies[i] == b;
        assert values[i] == heads[b];
      }
      assert heads[bodies[0]] in e.snapshots;
      forall x | x in e.snapshots ensures exists b :: b in bodies && b in heads && heads[b] == x {
        var i :| 0 <= i < |values| && values[i] == x;
        assert bodies[i] in bodies && heads[bodies[i]] == x;
      }
    }
  }

  lemma InputIsRefused(tables: Tables, node: FeatureNode, stage: Stage, e: HydrationError)
    requires ReplayInput(tables, node, stage) == Failure(e)
    ensures InputRefused(tables, node, stage.snapshots, stage.branchHeads, e)
  {
    var branches := FeatureBranches(tables, node);
    forall b ensures b in branches <==> Acts(tables, node, b) {
      BranchesAct(tables, node, b);
    }
    if branches == [] {
      MarkerIsRefused(tables, node, stage, e);
    } else {
      assert Acts(tables, node, branches[0]);
      if e.MissingBranchSnapshot? || e.DivergentBranchInputs? {
        SharedHeadRefused(node.id, branches, stage.branchHeads, e);
        HeadsAreRefused(tables, node, branches, stage, e);
      }
    }
  }

  lemma MarkerIsRefused(tables: Tables, node: FeatureNode, stage: Stage, e: HydrationError)
    requires FeatureBranches(tables, node) == [] && ActsOnNone(tables, node)
    requires ReplayInput(tables, node, stage) == Failure(e)
    ensures InputRefused(tables, node, stage.snapshots, stage.branchHeads, e)
  {
  }

  lemma HeadsAreRefused(tables: Tables, node: FeatureNode, branches: seq<BodyId>, stage: Stage, e: HydrationError)
    requires forall b :: b in branches <==> Acts(tables, node, b)
    requires match e
             case MissingBranchSnapshot(f, b) => f == node.id && b in branches && b !in stage.branchHeads
             case DivergentBranchInputs(f, inputs) =>
               && f == node.id && Ascending(inputs) && |inputs| >= 2
               && (forall b :: b in branches ==> b in stage.branchHeads && stage.branchHeads[b] in inputs)
               && (forall x :: x in inputs ==>
                     exists b :: b in branches && b in stage.branchHeads && stage.branchHeads[b] == x)
             case _ => false
    ensures InputRefused(tables, node, stage.snapshots, stage.branchHeads, e)
  {
    if e.DivergentBranchInputs? {
      forall x | x in e.snapshots ensures HeadOfOne(tables, node, stage.branchHeads, x) {
        var b :| b in branches && b in stage.branchHeads && stage.branchHeads[b] == x;
        assert Acts(tables, node, b);
      }
    }
  }

  lemma InputStarts(tables: Tables, node: FeatureNode, stage: Stage, input: SnapshotId)
    requires ReplayInput(tables, node, stage) == Success(input)
    ensures StartsAt(tables, node, stage.features, stage.branchHeads, input)
  {
    var branches := FeatureBranches(tables, node);
    forall b ensures b in branches <==> Acts(tables, node, b) {
      BranchesAct(tables, node, b);
    }
    if branches != [] {
      assert Acts(tables, node, branches[0]);
      SharedHeadIsTheCommonHead(node.id, branches, stage.branchHeads, input);
    }
  }

  // -- the request -----------------------------------------------------------

  /** The recipe could not be bound to the parameters of the document. */
  ghost predicate BindRefused(environment: Environment, tables: Tables, action: ReplayAction, message: string) {
    var parameters := environment.resolvers.evaluateParameters(tables);
    && parameters.Success?
    && match action
       case ParameterizedKernel(recipe) =>
         environment.resolvers.bindKernel(recipe, parameters.value) == Failure(message)
       case SketchRegionExtrusion(recipe, bind) =>
         bind && environment.resolvers.bindSketch(recipe, parameters.value) == Failure(message)
       case SketchRevolve(recipe, bind) =>
         bind && environment.resolvers.bindSketch(recipe, parameters.value) == Failure(message)
       case _ => false
  }

  /** The sketch recipe of an action, and whether it reads parameters. */
  ghost predicate SketchOf(action: ReplayAction, recipe: Recipe, bind: bool) {
    match action
    case SketchRegionExtrusion(r, b) => recipe == r && bind == b
    case SketchRevolve(r, b) => recipe == r && bind == b
    case SketchLoft(r) => recipe == r && !bind
    case SketchSweep(r) => recipe == r && !bind
    case _ => false
  }

  /** The sketch's regions were not found. */
  ghost predicate RegionsRefused(environment: Environment, tables: Tables, input: Snapshot, action: ReplayAction,
                                 error: SketchError)
  {
    exists recipe, bind, bound ::
      && SketchOf(action, recipe, bind) && BoundTo(environment, tables, recipe, bind, bound)
      && environment.resolvers.resolveSketch(bound, tables, Policy(input, environment.rootPrecision)) == Failure(error)
  }

  /** The one command, or the target yet to be found, an action comes to. */
  ghost predicate ComesTo(environment: Environment, tables: Tables, input: Snapshot, action: ReplayAction,
                          concrete: Concrete)
  {
    match action
    case KernelCommand(command) => concrete == Plain(command)
    case TargetedKernel(template) => concrete == Targeted(template)
    case ParameterizedKernel(recipe) =>
      var parameters := environment.resolvers.evaluateParameters(tables);
      parameters.Success? && environment.resolvers.bindKernel(recipe, parameters.value) == Success(concrete)
    case _ =>
      exists recipe, bind, bound ::
        && SketchOf(action, recipe, bind) && BoundTo(environment, tables, recipe, bind, bound)
        && environment.resolvers.resolveSketch(bound, tables, Policy(input, environment.rootPrecision)) ==
           Success(concrete)
  }

  /** What the reports before the feature say of a persistent target. */
  ghost predicate Found(environment: Environment, before: seq<HydratedFeature>, input: SnapshotId,
                        template: Template, answer: PersistentResolution)
  {
    exists at, reports :: ListsReports(before, at, reports) &&
                          environment.resolvers.rebind(template, reports, input) == answer
  }

  /** The target was looked for, with this answer. */
  ghost predicate TargetSought(environment: Environment, tables: Tables, input: Snapshot, action: ReplayAction,
                               before: seq<HydratedFeature>, answer: PersistentResolution)
  {
    exists template ::
      ComesTo(environment, tables, input, action, Targeted(template)) &&
      Found(environment, before, input.id, template, answer)
  }

  /** The kernel refused the one command. */
  ghost predicate CommandRefused(environment: Environment, tables: Tables, input: Snapshot, node: FeatureNode,
                                 before: seq<HydratedFeature>, error: KernelError)
  {
    exists command ::
      && (ComesTo(environment, tables, input, node.action, Plain(command)) ||
          TargetSought(environment, tables, input, node.action, before, Resolved(command)))
      && environment.kernel.execute(node.id, input, Policy(input, environment.rootPrecision), command) == Failure(error)
  }

  /** The kernel refused a command of the chain, after it had run those before
      it; or there was none. */
  ghost predicate ChainRefused(environment: Environment, id: FeatureId, input: Snapshot, chain: seq<Command>,
                               error: KernelError)
  {
    if chain == [] then error == EmptyChain(input.id)
    else
      exists outcomes: seq<ExecutionOutcome> ::
        && |outcomes| < |chain|
        && (outcomes != [] ==> RanInTurn(environment, id, input, chain[..|outcomes|], outcomes))
        && var from := if outcomes == [] then input else outcomes[|outcomes| - 1].snapshot;
           environment.kernel.execute(id, from, Policy(from, environment.rootPrecision), chain[|outcomes|]) ==
           Failure(error)
  }

  ghost predicate BooleanRefused(environment: Environment, content: SnapshotId -> Snapshot, input: Snapshot,
                                 id: FeatureId, before: seq<HydratedFeature>, tool: BodyId,
                                 operation: BooleanOperation, error: KernelError)
  {
    var u := LastWriter(before, tool);
    u >= 0 &&
    environment.kernel.executeBoolean(id, input, content(before[u].association.output),
                                      Policy(input, environment.rootPrecision), operation) == Failure(error)
  }

  /** The action was not carried out on its input, and this is why. */
  ghost predicate ActionRefused(environment: Environment, tables: Tables, content: SnapshotId -> Snapshot,
                                input: Snapshot, node: FeatureNode, before: seq<HydratedFeature>, e: HydrationError)
  {
    match e
    case ParameterizedAction(id, message) =>
      id == node.id && BindRefused(environment, tables, node.action, message)
    case SketchRegion(id, error) => id == node.id && RegionsRefused(environment, tables, input, node.action, error)
    case PersistentTargetMissing(id, reason) =>
      id == node.id && TargetSought(environment, tables, input, node.action, before, Missing(reason))
    case PersistentTargetAmbiguous(id, reason) =>
      id == node.id && TargetSought(environment, tables, input, node.action, before, Ambiguous(reason))
    case MissingBranchSnapshot(id, body) =>
      id == node.id && node.action.Boolean? && body == node.action.tool && LastWriter(before, body) < 0
    case KernelFailure(id, error) =>
      id == node.id &&
      (match node.action
       case KernelChain(chain) => ChainRefused(environment, id, input, chain, error)
       case Boolean(_, tool, operation) =>
         BooleanRefused(environment, content, input, id, before, tool, operation, error)
       case _ => CommandRefused(environment, tables, input, node, before, error))
    case _ => false
  }

  lemma {:induction false} ChainIsRefused(session: Session, environment: Environment, id: FeatureId, input: Snapshot,
                                          chain: seq<Command>, e: HydrationError) returns (error: KernelError)
    requires OpenedBy(environment, session.tables, session) && RunChain(session, id, input, chain) == Failure(e)
    ensures e == KernelFailure(id, error) && ChainRefused(environment, id, input, chain, error)
    decreases |chain|
  {
    error := EmptyChain(input.id);
    if chain != [] {
      PolicyIs(input, session.rootPrecision);
      var first := ExecuteFeature(session, id, input, chain[0]);
      if first.Success? {
        error := ChainIsRefused(session, environment, id, first.value.snapshot, chain[1..], e);
        RefusedLater(environment, id, input, chain, first.value, error);
      } else {
        error := first.error.kernelError;
        RefusedAtOnce(environment, id, input, chain, error);
      }
    }
  }

  lemma RefusedAtOnce(environment: Environment, id: FeatureId, input: Snapshot, chain: seq<Command>,
                      error: KernelError)
    requires chain != []
    requires environment.kernel.execute(id, input, Policy(input, environment.rootPrecision), chain[0]) ==
             Failure(error)
    ensures ChainRefused(environment, id, input, chain, error)
  {
    var outcomes: seq<ExecutionOutcome> := [];
    assert |outcomes| < |chain|;
  }

  lemma RefusedLater(environment: Environment, id: FeatureId, input: Snapshot, chain: seq<Command>,
                     first: ExecutionOutcome, error: KernelError)
    requires |chain| > 1
    requires environment.kernel.execute(id, input, Policy(input, environment.rootPrecision), chain[0]) ==
             Success(first)
    requires ChainRefused(environment, id, first.snapshot, chain[1..], error)
    ensures ChainRefused(environment, id, input, chain, error)
  {
    var rest: seq<ExecutionOutcome> :|
      && |rest| < |chain[1..]|
      && (rest != [] ==> RanInTurn(environment, id, first.snapshot, chain[1..][..|rest|], rest))
      && var from := if rest == [] then first.snapshot else rest[|rest| - 1].snapshot;
         environment.kernel.execute(id, from, Policy(from, environment.rootPrecision), chain[1..][|rest|]) ==
         Failure(error);
    var outcomes := [first] + rest;
    forall k | 0 <= k < |outcomes| ensures RanAt(environment, id, input, chain[..|outcomes|], outcomes, k) {
      if k > 0 {
        assert RanAt(environment, id, first.snapshot, chain[1..][..|rest|], rest, k - 1);
      }
    }
    assert RanInTurn(environment, id, input, chain[..|outcomes|], outcomes);
    assert outcomes[|outcomes| - 1] == if rest == [] then first else rest[|rest| - 1];
  }

  lemma OneCommandRefused(session: Session, environment: Environment, tables: Tables, content: SnapshotId -> Snapshot,
                          input: Snapshot, node: FeatureNode, concrete: Concrete, stage: Stage, e: HydrationError)
    requires OpenedBy(environment, tables, session) && ComesTo(environment, tables, input, node.action, concrete)
    requires !node.action.KernelChain? && !node.action.Boolean?
    requires RunOneCommand(session, node.id, concrete, input, stage) == Failure(e)
    ensures ActionRefused(environment, tables, content, input, node, stage.features, e)
  {
    PolicyIs(input, session.rootPrecision);
    if concrete.Targeted? {
      var at := OrderedReportsList(stage.features);
      var answer := session.resolvers.rebind(concrete.template, OrderedReports(stage.features), input.id);
      assert Found(environment, stage.features, input.id, concrete.template, answer);
      assert TargetSought(environment, tables, input, node.action, stage.features, answer);
    }
  }

  lemma SketchComesTo(session: Session, environment: Environment, tables: Tables, input: Snapshot, node: FeatureNode,
                      recipe: Recipe, bind: bool)
    requires OpenedBy(environment, tables, session) && SketchOf(node.action, recipe, bind)
    requires bind ==> session.parameters.Some?
    ensures match ResolveSketch(session, node.id, recipe, bind, input)
            case Success(action) =>
              action.RunOne? && ComesTo(environment, tables, input, node.action, action.concrete)
            case Failure(e) =>
              match e
              case ParameterizedAction(id, m) => id == node.id && BindRefused(environment, tables, node.action, m)
              case SketchRegion(id, error) =>
                id == node.id && RegionsRefused(environment, tables, input, node.action, error)
              case _ => false
  {
    PolicyIs(input, session.rootPrecision);
    var bound := BoundSketch(session, node.id, recipe, bind);
    if bound.Success? {
      assert BoundTo(environment, tables, recipe, bind, bound.value);
    }
  }

  /** What resolving an action comes to, or why it is refused. */
  lemma ActionComesTo(session: Session, environment: Environment, tables: Tables, content: SnapshotId -> Snapshot,
                      input: Snapshot, node: FeatureNode, before: seq<HydratedFeature>)
    requires OpenedBy(environment, tables, session)
    requires node.action.ReadsParameters() ==> session.parameters.Some?
    ensures match ResolveAction(session, node, input)
            case Failure(e) => ActionRefused(environment, tables, content, input, node, before, e)
            case Success(action) =>
              match node.action
              case KernelChain(chain) => action == RunMany(chain)
              case Boolean(_, tool, operation) => action == Combine(tool, operation)
              case _ =>
                if DocumentOnly(node.action) then action == RecordOnly
                else action.RunOne? && ComesTo(environment, tables, input, node.action, action.concrete)
  {
    match node.action
    case SketchRegionExtrusion(recipe, bind) =>
      SketchComesTo(session, environment, tables, input, node, recipe, bind);
    case SketchRevolve(recipe, bind) => SketchComesTo(session, environment, tables, input, node, recipe, bind);
    case SketchLoft(recipe) => SketchComesTo(session, environment, tables, input, node, recipe, false);
    case SketchSweep(recipe) => SketchComesTo(session, environment, tables, input, node, recipe, false);
    case _ =>
  }

  lemma BooleanIsRefused(session: Session, environment: Environment, tables: Tables, content: SnapshotId -> Snapshot,
                         input: Snapshot, node: FeatureNode, stage: Stage, e: HydrationError)
    requires OpenedBy(environment, tables, session) && node.action.Boolean?
    requires Archived(stage, content) && HeadsAreLast(stage.features, stage.branchHeads)
    requires RunBoolean(session, node.id, node.action.tool, node.action.operation, input, stage) == Failure(e)
    ensures ActionRefused(environment, tables, content, input, node, stage.features, e)
  {
    PolicyIs(input, session.rootPrecision);
  }

  /** A feature whose input is there but that does not run was refused by the
      resolvers or the kernel. */
  lemma RunIsRefused(session: Session, environment: Environment, tables: Tables, content: SnapshotId -> Snapshot,
                     input: Snapshot, node: FeatureNode, stage: Stage, e: HydrationError)
    requires OpenedBy(environment, tables, session)
    requires node.action.ReadsParameters() ==> session.parameters.Some?
    requires Archived(stage, content) && HeadsAreLast(stage.features, stage.branchHeads)
    requires var action := ResolveAction(session, node, input);
             (action.Failure? && action.error == e) ||
             (action.Success? && RunAction(session, node.id, action.value, input, stage) == Failure(e))
    ensures ActionRefused(environment, tables, content, input, node, stage.features, e)
  {
    ActionComesTo(session, environment, tables, content, input, node, stage.features);
    var action := ResolveAction(session, node, input);
    if action.Success? {
      match action.value
      case RunOne(concrete) =>
        OneCommandRefused(session, environment, tables, content, input, node, concrete, stage, e);
      case RunMany(chain) => var error := ChainIsRefused(session, environment, node.id, input, chain, e);
      case Combine(_, _) => BooleanIsRefused(session, environment, tables, content, input, node, stage, e);
    }
  }

  // -- one step --------------------------------------------------------------

  /** A clean feature has no record, or replay made something else. */
  ghost predicate RecordRefused(environment: Environment, tables: Tables, content: SnapshotId -> Snapshot,
                                node: FeatureNode, before: seq<HydratedFeature>, e: HydrationError)
  {
    match e
    case MissingCleanProvenance(id) => id == node.id && node.rebuild == Clean && node.committed.None?
    case ProvenanceMismatch(id, persisted, replayed) =>
      && id == node.id && node.rebuild == Clean && node.committed == Some(persisted) && persisted != replayed
      && exists f: HydratedFeature :: f.feature == id && f.association == replayed &&
                                      Requested(environment, tables, content, node, before, f)
    case _ => false
  }

  /** A feature was not replayed, and this is why: its input, its action, or
      its record. */
  ghost predicate Refused(environment: Environment, tables: Tables, content: SnapshotId -> Snapshot,
                          node: FeatureNode, snapshots: map<SnapshotId, Snapshot>, before: seq<HydratedFeature>,
                          heads: map<BodyId, SnapshotId>, e: HydrationError)
  {
    || InputRefused(tables, node, snapshots, heads, e)
    || (exists input :: StartsAt(tables, node, before, heads, input) &&
                        ActionRefused(environment, tables, content, content(input), node, before, e))
    || RecordRefused(environment, tables, content, node, before, e)
  }

  lemma InputIsThere(session: Session, content: SnapshotId -> Snapshot, node: FeatureNode, stage: Stage,
                     input: SnapshotId)
    requires Archived(stage, content) && ReplayInput(session.tables, node, stage) == Success(input)
    ensures input in stage.snapshots && stage.snapshots[input] == content(input)
  {
    var branches := FeatureBranches(session.tables, node);
    if branches != [] {
      SharedHeadIsTheCommonHead(node.id, branches, stage.branchHeads, input);
      assert branches[0] in branches;
    }
  }

  lemma RecordIsRefused(session: Session, environment: Environment, content: SnapshotId -> Snapshot, node: FeatureNode,
                        stage: Stage, result: ActionResult, e: HydrationError)
    requires OpenedBy(environment, session.tables, session) && KernelContract(session.kernel, content)
    requires node.action.ReadsParameters() ==> session.parameters.Some?
    requires Chained(session, content, stage) && RunFeature(session, stage, node) == Success(result)
    requires VerifyProvenance(node, result.association) == Failure(e)
    ensures RecordRefused(environment, session.tables, content, node, stage.features, e)
  {
    if e.ProvenanceMismatch? {
      var f := HydratedFeature(node.id, [], result.association, result.report, Verified, result.commands);
      var input := stage.snapshots[ReplayInput(session.tables, node, stage).value];
      RecordedResult(session, content, stage, node, result);
      ActionRequested(session, environment, content, node, input, ResolveAction(session, node, input).value, stage,
                      result, f);
    }
  }

  lemma StepIsRefused(session: Session, environment: Environment, content: SnapshotId -> Snapshot, node: FeatureNode,
                      stage: Stage, e: HydrationError)
    requires OpenedBy(environment, session.tables, session) && KernelContract(session.kernel, content)
    requires node.action.ReadsParameters() ==> session.parameters.Some?
    requires Chained(session, content, stage) && Step(session, stage, node) == Failure(e)
    ensures Refused(environment, session.tables, content, node, stage.snapshots, stage.features, stage.branchHeads, e)
  {
    var found := ReplayInput(session.tables, node, stage);
    if found.Failure? {
      InputIsRefused(session.tables, node, stage, e);
    } else {
      InputStarts(session.tables, node, stage, found.value);
      InputIsThere(session, content, node, stage, found.value);
      var result := RunFeature(session, stage, node);
      if result.Failure? {
        RunIsRefused(session, environment, session.tables, content, content(found.value), node, stage, e);
      } else {
        RecordIsRefused(session, environment, content, node, stage, result.value, e);
      }
    }
  }

  // -- the whole document ----------------------------------------------------

  lemma SameEarlier(environment: Environment, document: ModelDocument, at: nat, early: HydratedDocument,
                    session: Session) returns (before: Stage)
    requires ValidCursor(document) && at < |document.features|
    requires Hydrate(environment, document.(position := at)) == Success(early)
    requires OpenSession(environment, document.tables, document.features[..at + 1]) == Success(session)
    ensures ParametersReady(session, document.features[..at])
    ensures ReplayAll(session, document.features[..at]) == Success(before)
    ensures before.snapshots == early.snapshots && before.features == early.features
    ensures before.branchHeads == early.branchHeads
  {
    var fewer, more := document.features[..at], document.features[..at + 1];
    assert more[..at] == fewer;
    var earlier, stage := HydrationRun(environment, document.(position := at), early);
    if AnyReadsParameters(fewer) {
      var i :| 0 <= i < |fewer| && fewer[i].action.ReadsParameters();
      assert more[i].action.ReadsParameters();
    } else {
      ParametersUnread(earlier, session, fewer);
    }
    before := stage;
  }

  /** A document that hydrates at one history position and is refused at the
      next is refused for what the next feature meets: parameters that do not
      evaluate, an input that is not to be had, a recipe, a target or a command
      that is refused, or a record that does not agree. */
  lemma RefusalIsExplained(environment: Environment, content: SnapshotId -> Snapshot, document: ModelDocument,
                           at: nat, early: HydratedDocument, e: HydrationError)
    requires KernelContract(environment.kernel, content)
    requires ValidCursor(document) && at < |document.features|
    requires Hydrate(environment, document.(position := at)) == Success(early)
    requires Hydrate(environment, document.(position := at + 1)) == Failure(e)
    ensures var node := document.features[at];
            if e.ParameterEvaluation? then
              Parametric(node.action) &&
              environment.resolvers.evaluateParameters(document.tables) == Failure(e.message)
            else Refused(environment, document.tables, content, node, early.snapshots, early.features,
                         early.branchHeads, e)
  {
    var more := document.features[..at + 1];
    assert more[..at] == document.features[..at];
    var start := OpenSession(environment, document.tables, more);
    if start.Failure? {
      NoneReadsBefore(environment, document, at, early);
    } else {
      var before := SameEarlier(environment, document, at, early, start.value);
      SessionIsOpened(environment, document.(position := at + 1), start.value);
      ReplayChains(start.value, content, more[..at], before);
      StepIsRefused(start.value, environment, content, document.features[at], before, e);
      ActionsNotParameters(environment, document.tables, content, document.features[at], early, e);
    }
  }

  lemma ActionsNotParameters(environment: Environment, tables: Tables, content: SnapshotId -> Snapshot,
                             node: FeatureNode, early: HydratedDocument, e: HydrationError)
    requires Refused(environment, tables, content, node, early.snapshots, early.features, early.branchHeads, e)
    ensures !e.ParameterEvaluation?
  {
  }

  lemma NoneReadsBefore(environment: Environment, document: ModelDocument, at: nat, early: HydratedDocument)
    requires ValidCursor(document) && at < |document.features|
    requires Hydrate(environment, document.(position := at)) == Success(early)
    requires OpenSession(environment, document.tables, document.features[..at + 1]).Failure?
    ensures document.features[at].action.ReadsParameters()
  {
    var fewer, more := document.features[..at], document.features[..at + 1];
    assert !AnyReadsParameters(fewer);
    forall j | 0 <= j < at ensures !more[j].action.ReadsParameters() {
      assert fewer[j] == more[j];
    }
    var i :| 0 <= i < |more| && more[i].action.ReadsParameters();
  }
}
