/**
  Where every replayed result comes from: which snapshot each feature read,
  what each body's head is, and that a feature's recorded commands make its
  result again.
*/
module ReplayProvenance {
  import opened Results
  import opened Document
  import opened Replay
  import opened ReplayTimeline
  import opened ReplayFixpoint

  /** The last of these features that acted on a body, or -1. */
  function LastWriter(features: seq<HydratedFeature>, body: BodyId): (w: int)
    ensures -1 <= w < |features|
    ensures w >= 0 ==> body in features[w].branches
    ensures forall i :: w < i < |features| ==> body !in features[i].branches
  {
    if features == [] then -1
    else if body in features[|features| - 1].branches then |features| - 1
    else LastWriter(features[..|features| - 1], body)
  }

  /** A body has a head exactly when some feature acted on it, and the head is
      what the last of them left. */
  ghost predicate HeadsAreLast(features: seq<HydratedFeature>, heads: map<BodyId, SnapshotId>) {
    forall b :: (b in heads <==> LastWriter(features, b) >= 0) &&
                (b in heads ==> heads[b] == features[LastWriter(features, b)].association.output)
  }

  /** A feature creates all of its bodies, from the empty snapshot, or finds
      all of them exactly as the latest earlier feature on each left them. */
  ghost predicate ReadsLatest(tables: Tables, features: seq<HydratedFeature>, i: nat)
    requires i < |features|
  {
    var f := features[i];
    || f.branches == []
    || (f.association.input == ZERO && forall b :: b in f.branches ==> CreatedBy(tables, b, f.feature))
    || (forall b :: b in f.branches ==>
          && !CreatedBy(tables, b, f.feature)
          && LastWriter(features[..i], b) >= 0
          && features[LastWriter(features[..i], b)].association.output == f.association.input)
  }

  /** Every archived snapshot is the one its id stands for, and nothing a
      result or a head names is missing from the archive. */
  ghost predicate Archived(stage: Stage, content: SnapshotId -> Snapshot) {
    && ZERO in stage.snapshots
    && (forall id :: id in stage.snapshots ==> stage.snapshots[id] == content(id) && content(id).id == id)
    && (forall b :: b in stage.branchHeads ==> stage.branchHeads[b] in stage.snapshots)
    && (forall i :: 0 <= i < |stage.features| ==>
          stage.features[i].association.input in stage.snapshots &&
          stage.features[i].association.output in stage.snapshots)
  }

  /** Running the recorded commands on the recorded input makes the recorded
      result. */
  ghost predicate RunsAgain(session: Session, content: SnapshotId -> Snapshot, f: HydratedFeature) {
    f.commands != [] ==>
      var again := RunChain(session, f.feature, content(f.association.input), f.commands);
      && again.Success?
      && again.value.snapshot == content(f.association.output)
      && again.value.snapshot.id == f.association.output
      && again.value.report.digest == f.association.digest
      && f.report == Some(again.value.report)
  }

  ghost predicate Chained(session: Session, content: SnapshotId -> Snapshot, stage: Stage) {
    && Archived(stage, content)
    && HeadsAreLast(stage.features, stage.branchHeads)
    && (forall i :: 0 <= i < |stage.features| ==> ReadsLatest(session.tables, stage.features, i))
    && (forall i :: 0 <= i < |stage.features| ==> RunsAgain(session, content, stage.features[i]))
  }

  // -- one step --------------------------------------------------------------

  lemma {:induction false} ChainIsHonest(session: Session, content: SnapshotId -> Snapshot, id: FeatureId,
                                         input: Snapshot, chain: seq<Command>)
    requires KernelContract(session.kernel, content)
    requires RunChain(session, id, input, chain).Success?
    ensures var outcome := RunChain(session, id, input, chain).value;
            && outcome.report.output == outcome.snapshot.id
            && outcome.snapshot == content(outcome.snapshot.id)
            && (|chain| == 1 ==> outcome.report.input == input.id)
    decreases |chain|
  {
    var first := ExecuteFeature(session, id, input, chain[0]).value;
    assert HonestOutcome(input, first, content);
    if |chain| > 1 {
      ChainIsHonest(session, content, id, first.snapshot, chain[1..]);
    }
  }

  /** A run's association starts at the input it read and ends at the
      snapshot it published; its commands run again to the same end. */
  lemma ActionIsHonest(session: Session, content: SnapshotId -> Snapshot, id: FeatureId, action: ResolvedAction,
                       input: Snapshot, stage: Stage, result: ActionResult)
    requires KernelContract(session.kernel, content)
    requires RunAction(session, id, action, input, stage) == Success(result)
    ensures result.association.input == input.id
    ensures result.output.None? ==> result.association.output == input.id && result.commands == []
    ensures result.output.Some? ==>
              result.output.value.id == result.association.output &&
              result.output.value == content(result.association.output)
    ensures result.commands != [] ==>
              var again := RunChain(session, id, input, result.commands);
              && again.Success?
              && result.output == Some(again.value.snapshot)
              && result.report == Some(again.value.report)
              && again.value.report.digest == result.association.digest
  {
    match action
    case RecordOnly =>
    case RunOne(concrete) =>
      var command := RebindTarget(session, id, concrete, input, stage).value;
      assert RunChain(session, id, input, [command]) == ExecuteFeature(session, id, input, command);
      ChainIsHonest(session, content, id, input, [command]);
    case RunMany(chain) =>
      ChainIsHonest(session, content, id, input, chain);
    case Combine(tool, operation) =>
      var toolSnapshot := stage.snapshots[stage.branchHeads[tool]];
      var precision := input.PrecisionOr(session.rootPrecision);
      assert HonestOutcome(input, session.kernel.executeBoolean(id, input, toolSnapshot, precision, operation).value,
                           content);
  }

  lemma InputIsLatest(tables: Tables, feature: FeatureNode, stage: Stage, input: SnapshotId)
    requires HeadsAreLast(stage.features, stage.branchHeads)
    requires ReplayInput(tables, feature, stage) == Success(input)
    ensures var branches := FeatureBranches(tables, feature);
            || branches == []
            || (input == ZERO && forall b :: b in branches ==> CreatedBy(tables, b, feature.id))
            || (forall b :: b in branches ==>
                  && !CreatedBy(tables, b, feature.id)
                  && LastWriter(stage.features, b) >= 0
                  && stage.features[LastWriter(stage.features, b)].association.output == input)
  {
    var branches := FeatureBranches(tables, feature);
    if branches != [] {
      assert branches[0] in branches;
      SharedHeadIsTheCommonHead(feature.id, branches, stage.branchHeads, input);
    }
  }

  lemma HeadsAdvance(features: seq<HydratedFeature>, heads: map<BodyId, SnapshotId>, f: HydratedFeature)
    requires HeadsAreLast(features, heads)
    ensures HeadsAreLast(features + [f], Advance(heads, f.branches, f.association.output))
  {
    assert (features + [f])[..|features|] == features;
  }

  lemma ReadsLatestKept(tables: Tables, features: seq<HydratedFeature>, f: HydratedFeature, i: nat)
    requires i < |features| && ReadsLatest(tables, features, i)
    ensures ReadsLatest(tables, features + [f], i)
  {
    assert (features + [f])[..i] == features[..i];
  }

  /** The result a step records, with everything `Chained` says of it. */
  lemma RecordedResult(session: Session, content: SnapshotId -> Snapshot, before: Stage, feature: FeatureNode,
                       result: ActionResult)
    requires KernelContract(session.kernel, content)
    requires feature.action.ReadsParameters() ==> session.parameters.Some?
    requires Archived(before, content)
    requires RunFeature(session, before, feature) == Success(result)
    ensures ReplayInput(session.tables, feature, before) == Success(result.association.input)
    ensures result.association.input in before.snapshots
    ensures result.association.output in Publish(before.snapshots, result.output)
    ensures result.output.Some? ==> result.output.value.id == result.association.output
    ensures result.output.Some? ==> result.output.value == content(result.association.output)
    ensures result.output.None? ==> result.association.output == result.association.input && result.commands == []
    ensures result.commands != [] ==>
              var again := RunChain(session, feature.id, content(result.association.input), result.commands);
              && again.Success?
              && result.output == Some(again.value.snapshot)
              && result.report == Some(again.value.report)
              && again.value.report.digest == result.association.digest
  {
    var inputId := ReplayInput(session.tables, feature, before).value;
    var input := before.snapshots[inputId];
    var action := ResolveAction(session, feature, input).value;
    ActionIsHonest(session, content, feature.id, action, input, before, result);
  }

  lemma RecordArchives(content: SnapshotId -> Snapshot, before: Stage, feature: FeatureNode, branches: seq<BodyId>,
                       result: ActionResult, provenance: HydratedProvenance)
    requires Archived(before, content)
    requires result.association.input in before.snapshots
    requires result.association.output in Publish(before.snapshots, result.output)
    requires result.output.Some? ==>
               result.output.value.id == result.association.output &&
               result.output.value == content(result.association.output)
    ensures Archived(Record(before, feature, branches, result, provenance), content)
  {
  }

  lemma RecordReads(tables: Tables, before: Stage, feature: FeatureNode, result: ActionResult,
                    provenance: HydratedProvenance)
    requires HeadsAreLast(before.features, before.branchHeads)
    requires forall i :: 0 <= i < |before.features| ==> ReadsLatest(tables, before.features, i)
    requires ReplayInput(tables, feature, before) == Success(result.association.input)
    ensures var after := Record(before, feature, FeatureBranches(tables, feature), result, provenance);
            && HeadsAreLast(after.features, after.branchHeads)
            && (forall i :: 0 <= i < |after.features| ==> ReadsLatest(tables, after.features, i))
  {
    var after := Record(before, feature, FeatureBranches(tables, feature), result, provenance);
    var f := after.features[|before.features|];
    InputIsLatest(tables, feature, before, result.association.input);
    HeadsAdvance(before.features, before.branchHeads, f);
    assert after.features[..|before.features|] == before.features;
    forall i | 0 <= i < |after.features| ensures ReadsLatest(tables, after.features, i) {
      if i < |before.features| {
        ReadsLatestKept(tables, before.features, f, i);
      }
    }
  }

  lemma RecordChains(session: Session, content: SnapshotId -> Snapshot, before: Stage, feature: FeatureNode,
                     result: ActionResult, provenance: HydratedProvenance)
    requires KernelContract(session.kernel, content)
    requires feature.action.ReadsParameters() ==> session.parameters.Some?
    requires Chained(session, content, before)
    requires RunFeature(session, before, feature) == Success(result)
    ensures Chained(session, content,
                    Record(before, feature, FeatureBranches(session.tables, feature), result, provenance))
  {
    var branches := FeatureBranches(session.tables, feature);
    RecordedResult(session, content, before, feature, result);
    RecordArchives(content, before, feature, branches, result, provenance);
    RecordReads(session.tables, before, feature, result, provenance);
  }

  lemma {:induction false} ReplayChains(session: Session, content: SnapshotId -> Snapshot, features: seq<FeatureNode>,
                                        stage: Stage)
    requires KernelContract(session.kernel, content)
    requires ParametersReady(session, features)
    requires ReplayAll(session, features) == Success(stage)
    ensures Chained(session, content, stage)
    decreases |features|
  {
    if features != [] {
      var before, last := ReplayAll(session, features[..|features| - 1]).value, features[|features| - 1];
      ReplayChains(session, content, features[..|features| - 1], before);
      if SkipReasonFor(session.tables, last, before.unavailable).None? {
        StepRecords(session, before, last, stage);
        var result := RunFeature(session, before, last).value;
        RecordChains(session, content, before, last, result, VerifyProvenance(last, result.association).value);
      }
    }
  }

  // -- the whole run ---------------------------------------------------------

  /** In every successful hydration each feature reads what the latest earlier
      feature left on its bodies, or the empty snapshot if it creates them;
      each head is what the last feature on its body left; and every id in
      sight is archived with the snapshot it stands for. */
  lemma ProvenanceChain(environment: Environment, content: SnapshotId -> Snapshot, document: ModelDocument,
                        hydrated: HydratedDocument)
    requires KernelContract(environment.kernel, content)
    requires ValidCursor(document) && Hydrate(environment, document) == Success(hydrated)
    ensures forall i :: 0 <= i < |hydrated.features| ==> ReadsLatest(document.tables, hydrated.features, i)
    ensures HeadsAreLast(hydrated.features, hydrated.branchHeads)
    ensures forall b :: b in hydrated.branchHeads ==> hydrated.branchHeads[b] in hydrated.snapshots
    ensures forall id :: id in hydrated.snapshots ==> hydrated.snapshots[id] == content(id) && content(id).id == id
    ensures forall i :: 0 <= i < |hydrated.features| ==>
              hydrated.features[i].association.input in hydrated.snapshots &&
              hydrated.features[i].association.output in hydrated.snapshots
  {
    var session, stage := HydrationRun(environment, document, hydrated);
    ReplayChains(session, content, document.features[..document.position], stage);
  }

  /** Replaying a feature's recorded commands on the snapshot it started from
      yields exactly the snapshot and the report the document holds for it. */
  lemma CommandsReproduce(environment: Environment, content: SnapshotId -> Snapshot, document: ModelDocument,
                          hydrated: HydratedDocument, i: nat)
    requires KernelContract(environment.kernel, content)
    requires ValidCursor(document) && Hydrate(environment, document) == Success(hydrated)
    requires i < |hydrated.features| && hydrated.features[i].commands != []
    ensures var f := hydrated.features[i];
            var bare := Session(environment.kernel, environment.resolvers, document.tables, None,
                                environment.rootPrecision);
            && f.association.input in hydrated.snapshots
            && f.association.output in hydrated.snapshots
            && f.report.Some?
            && RunChain(bare, f.feature, hydrated.snapshots[f.association.input], f.commands) ==
               Success(ExecutionOutcome(hydrated.snapshots[f.association.output], f.report.value))
  {
    var session, stage := HydrationRun(environment, document, hydrated);
    ReplayChains(session, content, document.features[..document.position], stage);
    var f := hydrated.features[i];
    var bare := Session(environment.kernel, environment.resolvers, document.tables, None, environment.rootPrecision);
    assert RunsAgain(session, content, f);
    ChainWithoutParameters(session, bare, f.feature, content(f.association.input), f.commands);
  }

  // -- branches --------------------------------------------------------------

  /** This result was recorded for a feature with these branches. */
  ghost predicate FromNode(tables: Tables, nodes: seq<FeatureNode>, f: HydratedFeature) {
    exists n :: 0 <= n < |nodes| && nodes[n].id == f.feature && f.branches == FeatureBranches(tables, nodes[n])
  }

  lemma {:induction false} ReplayBranches(session: Session, features: seq<FeatureNode>, stage: Stage)
    requires ParametersReady(session, features)
    requires ReplayAll(session, features) == Success(stage)
    ensures forall i :: 0 <= i < |stage.features| ==> FromNode(session.tables, features, stage.features[i])
    decreases |features|
  {
    if features != [] {
      var init, last := features[..|features| - 1], features[|features| - 1];
      var before := ReplayAll(session, init).value;
      ReplayBranches(session, init, before);
      forall i | 0 <= i < |before.features| ensures FromNode(session.tables, features, before.features[i]) {
        var n :| 0 <= n < |init| && init[n].id == before.features[i].feature &&
                 before.features[i].branches == FeatureBranches(session.tables, init[n]);
        assert features[n] == init[n];
      }
      if SkipReasonFor(session.tables, last, before.unavailable).None? {
        StepRecords(session, before, last, stage);
        assert FromNode(session.tables, features, stage.features[|before.features|]);
      }
    }
  }

  /** A replayed Boolean advanced its target and nothing else: its input and
      its output are both on the target, so the tool body's head is whatever
      some other feature left. */
  lemma BooleanAdvancesTarget(environment: Environment, document: ModelDocument, hydrated: HydratedDocument, i: nat,
                              n: nat)
    requires ValidDocument(document) && Hydrate(environment, document) == Success(hydrated)
    requires i < |hydrated.features| && n < document.position
    requires document.features[n].id == hydrated.features[i].feature && document.features[n].action.Boolean?
    ensures hydrated.features[i].branches == [document.features[n].action.target]
    ensures document.features[n].action.tool != document.features[n].action.target ==>
              LastWriter(hydrated.features, document.features[n].action.tool) != i
  {
    var session, stage := HydrationRun(environment, document, hydrated);
    ReplayBranches(session, document.features[..document.position], stage);
    assert FromNode(document.tables, document.features[..document.position], hydrated.features[i]);
  }
}
