/**
  Saving what a replay found and replaying again changes nothing: a document
  whose replayed associations are stored and marked clean hydrates to the
  same runtime with every feature verified.
*/
module ReplayFixpoint {
  import opened Results
  import opened Document
  import opened Replay
  import opened ReplayTimeline

  /** The association a run found for a feature. */
  function AssociationOf(features: seq<HydratedFeature>, id: FeatureId): Option<SnapshotAssociation> {
    if features == [] then None
    else if features[0].feature == id then Some(features[0].association)
    else AssociationOf(features[1..], id)
  }

  /** Stores a replayed association as the committed record. */
  function Commit(node: FeatureNode, features: seq<HydratedFeature>): FeatureNode {
    match AssociationOf(features, node.id)
    case Some(association) => node.(committed := Some(association), rebuild := Clean)
    case None => node
  }

  function CommitAll(nodes: seq<FeatureNode>, features: seq<HydratedFeature>): (r: seq<FeatureNode>)
    ensures |r| == |nodes| && forall i :: 0 <= i < |r| ==> r[i] == Commit(nodes[i], features)
  {
    seq(|nodes|, i requires 0 <= i < |nodes| => Commit(nodes[i], features))
  }

  function CommitDocument(hydrated: HydratedDocument): ModelDocument {
    hydrated.document.(features := CommitAll(hydrated.document.features, hydrated.features))
  }

  function VerifyAll(features: seq<HydratedFeature>): (r: seq<HydratedFeature>)
    ensures |r| == |features| && forall i :: 0 <= i < |r| ==> r[i] == features[i].(provenance := Verified)
  {
    seq(|features|, i requires 0 <= i < |features| => features[i].(provenance := Verified))
  }

  function VerifiedStage(stage: Stage): Stage {
    stage.(features := VerifyAll(stage.features))
  }

  lemma {:induction false} AssociationBySlot(features: seq<HydratedFeature>, id: FeatureId, k: nat)
    requires k < |features| && features[k].feature == id
    requires forall i :: 0 <= i < k ==> features[i].feature != id
    ensures AssociationOf(features, id) == Some(features[k].association)
  {
    if k > 0 {
      AssociationBySlot(features[1..], id, k - 1);
    }
  }

  lemma {:induction false} AssociationMissing(features: seq<HydratedFeature>, id: FeatureId)
    requires id !in FeatureIds(features)
    ensures AssociationOf(features, id).None?
  {
    if features != [] {
      assert FeatureIds(features)[0] == features[0].feature;
      forall i | 0 <= i < |features| - 1 ensures features[1..][i].feature != id {
        assert FeatureIds(features)[i + 1] == features[i + 1].feature;
      }
      AssociationMissing(features[1..], id);
    }
  }

  // -- one step --------------------------------------------------------------

  /** Every archived snapshot is filed under its own id. */
  ghost predicate Filed(snapshots: map<SnapshotId, Snapshot>) {
    forall id :: id in snapshots ==> snapshots[id].id == id
  }

  lemma {:induction false} VerifiedReports(features: seq<HydratedFeature>)
    ensures OrderedReports(VerifyAll(features)) == OrderedReports(features)
  {
    if features != [] {
      var init := features[..|features| - 1];
      VerifiedReports(init);
      assert VerifyAll(features)[..|features| - 1] == VerifyAll(init);
    }
  }

  /** The recorded association starts at the input that was read. */
  lemma ResultStartsAtInput(session: Session, stage: Stage, feature: FeatureNode, result: ActionResult)
    requires feature.action.ReadsParameters() ==> session.parameters.Some?
    requires Filed(stage.snapshots) && feature.action.IsDocumentOnly()
    requires RunFeature(session, stage, feature) == Success(result)
    ensures ReplayInput(session.tables, feature, stage) == Success(result.association.input)
    ensures result.association.input in stage.snapshots
  {
  }

  /** The committed node finds the same input. */
  lemma InputUnchanged(session: Session, stage: Stage, feature: FeatureNode, result: ActionResult)
    requires feature.action.ReadsParameters() ==> session.parameters.Some?
    requires Filed(stage.snapshots)
    requires RunFeature(session, stage, feature) == Success(result)
    ensures var again := feature.(committed := Some(result.association), rebuild := Clean);
            ReplayInput(session.tables, again, VerifiedStage(stage)) == ReplayInput(session.tables, feature, stage)
  {
    var again := feature.(committed := Some(result.association), rebuild := Clean);
    assert FeatureBranches(session.tables, again) == FeatureBranches(session.tables, feature);
    if feature.action.IsDocumentOnly() {
      ResultStartsAtInput(session, stage, feature, result);
    }
  }

  lemma ResolveUnchanged(session: Session, feature: FeatureNode, again: FeatureNode, input: Snapshot)
    requires feature.action.ReadsParameters() ==> session.parameters.Some?
    requires again.id == feature.id && again.action == feature.action
    ensures ResolveAction(session, again, input) == ResolveAction(session, feature, input)
  {
  }

  lemma ActionOnVerified(session: Session, id: FeatureId, action: ResolvedAction, input: Snapshot, stage: Stage)
    ensures RunAction(session, id, action, input, VerifiedStage(stage)) == RunAction(session, id, action, input, stage)
  {
    VerifiedReports(stage.features);
  }

  lemma RunUnchanged(session: Session, stage: Stage, feature: FeatureNode, result: ActionResult)
    requires feature.action.ReadsParameters() ==> session.parameters.Some?
    requires Filed(stage.snapshots)
    requires RunFeature(session, stage, feature) == Success(result)
    ensures var again := feature.(committed := Some(result.association), rebuild := Clean);
            RunFeature(session, VerifiedStage(stage), again) == Success(result)
  {
    var again := feature.(committed := Some(result.association), rebuild := Clean);
    InputUnchanged(session, stage, feature, result);
    var input := stage.snapshots[ReplayInput(session.tables, feature, stage).value];
    ResolveUnchanged(session, feature, again, input);
    var action := ResolveAction(session, feature, input).value;
    ActionOnVerified(session, feature.id, action, input, stage);
  }

  /** What a step that is not a skip adds to the stage. */
  lemma StepRecords(session: Session, before: Stage, feature: FeatureNode, after: Stage)
    requires feature.action.ReadsParameters() ==> session.parameters.Some?
    requires Step(session, before, feature) == Success(after)
    requires SkipReasonFor(session.tables, feature, before.unavailable).None?
    ensures RunFeature(session, before, feature).Success?
    ensures var result := RunFeature(session, before, feature).value;
            && VerifyProvenance(feature, result.association).Success?
            && after == Record(before, feature, FeatureBranches(session.tables, feature), result,
                               VerifyProvenance(feature, result.association).value)
  {
  }

  lemma StepVerifies(session: Session, before: Stage, feature: FeatureNode, after: Stage)
    requires feature.action.ReadsParameters() ==> session.parameters.Some?
    requires Filed(before.snapshots)
    requires Step(session, before, feature) == Success(after)
    requires SkipReasonFor(session.tables, feature, before.unavailable).None?
    ensures after.features != []
    ensures var again := feature.(committed := Some(after.features[|after.features| - 1].association),
                                  rebuild := Clean);
            Step(session, VerifiedStage(before), again) == Success(VerifiedStage(after))
  {
    StepRecords(session, before, feature, after);
    var result := RunFeature(session, before, feature).value;
    var again := feature.(committed := Some(result.association), rebuild := Clean);
    RunUnchanged(session, before, feature, result);
    assert FeatureBranches(session.tables, again) == FeatureBranches(session.tables, feature);
    assert SkipReasonFor(session.tables, again, before.unavailable).None?;
    assert VerifyProvenance(again, result.association) == Success(Verified);
    assert VerifyAll(after.features) ==
           VerifyAll(before.features) + [after.features[|before.features|].(provenance := Verified)];
  }

  lemma StepSkips(session: Session, before: Stage, feature: FeatureNode, after: Stage)
    requires feature.action.ReadsParameters() ==> session.parameters.Some?
    requires Step(session, before, feature) == Success(after)
    requires SkipReasonFor(session.tables, feature, before.unavailable).Some?
    ensures Step(session, VerifiedStage(before), feature) == Success(VerifiedStage(after))
  {
  }

  lemma StepKeepsFiling(session: Session, before: Stage, feature: FeatureNode, after: Stage)
    requires feature.action.ReadsParameters() ==> session.parameters.Some?
    requires Filed(before.snapshots)
    requires Step(session, before, feature) == Success(after)
    ensures Filed(after.snapshots)
  {
    if SkipReasonFor(session.tables, feature, before.unavailable).None? {
      StepRecords(session, before, feature, after);
    }
  }

  lemma {:induction false} ReplayFiles(session: Session, features: seq<FeatureNode>, stage: Stage)
    requires ParametersReady(session, features)
    requires ReplayAll(session, features) == Success(stage)
    ensures Filed(stage.snapshots)
  {
    if features != [] {
      var before := ReplayAll(session, features[..|features| - 1]).value;
      ReplayFiles(session, features[..|features| - 1], before);
      StepKeepsFiling(session, before, features[|features| - 1], stage);
    }
  }

  // -- the whole run ---------------------------------------------------------

  lemma CommitFindsSlot(session: Session, features: seq<FeatureNode>, before: Stage, after: Stage,
                        final: seq<HydratedFeature>)
    requires features != [] && UniqueIds(features) && ParametersReady(session, features)
    requires Splits(features[..|features| - 1], before) && Splits(features, after)
    requires Step(session, before, features[|features| - 1]) == Success(after)
    requires SkipReasonFor(session.tables, features[|features| - 1], before.unavailable).None?
    requires after.features <= final
    ensures after.features != []
    ensures AssociationOf(final, features[|features| - 1].id) == Some(after.features[|after.features| - 1].association)
  {
    var init, last := features[..|features| - 1], features[|features| - 1];
    StepRecords(session, before, last, after);
    var k := |before.features|;
    SelectMembers(Ids(init), before.unavailable, false);
    forall i | 0 <= i < k ensures final[i].feature != last.id {
      assert final[i] == before.features[i];
      assert FeatureIds(before.features)[i] in Ids(init);
    }
    AssociationBySlot(final, last.id, k);
  }

  lemma {:induction false} CommittedRun(session: Session, features: seq<FeatureNode>, stage: Stage,
                                        final: seq<HydratedFeature>)
    requires UniqueIds(features) && ParametersReady(session, features)
    requires ReplayAll(session, features) == Success(stage)
    requires stage.features <= final
    requires forall id :: id in stage.unavailable ==> id !in FeatureIds(final)
    ensures ParametersReady(session, CommitAll(features, final))
    ensures ReplayAll(session, CommitAll(features, final)) == Success(VerifiedStage(stage))
    decreases |features|
  {
    if features == [] {
      assert VerifyAll([]) == [];
    } else {
      var init, last := features[..|features| - 1], features[|features| - 1];
      var before := ReplayAll(session, init).value;
      ReplayGrows(session, features, |init|, stage);
      StepUnavailable(session, before, last, stage);
      CommittedRun(session, init, before, final);
      assert CommitAll(features, final)[..|init|] == CommitAll(init, final);
      ReplayFiles(session, init, before);
      CommittedStep(session, features, before, stage, final);
    }
  }

  lemma CommittedStep(session: Session, features: seq<FeatureNode>, before: Stage, after: Stage,
                      final: seq<HydratedFeature>)
    requires features != [] && UniqueIds(features) && ParametersReady(session, features)
    requires ReplayAll(session, features[..|features| - 1]) == Success(before)
    requires Step(session, before, features[|features| - 1]) == Success(after)
    requires ReplayAll(session, features) == Success(after)
    requires Filed(before.snapshots) && after.features <= final
    requires forall id :: id in after.unavailable ==> id !in FeatureIds(final)
    ensures Step(session, VerifiedStage(before), Commit(features[|features| - 1], final)) ==
            Success(VerifiedStage(after))
  {
    var init, last := features[..|features| - 1], features[|features| - 1];
    if SkipReasonFor(session.tables, last, before.unavailable).Some? {
      assert last.id in after.unavailable;
      AssociationMissing(final, last.id);
      StepSkips(session, before, last, after);
    } else {
      ReplaySplits(session, init, before);
      ReplaySplits(session, features, after);
      CommitFindsSlot(session, features, before, after, final);
      StepVerifies(session, before, last, after);
    }
  }

  /** Storing every replayed association and marking its feature clean gives a
      document that hydrates to the same archive, heads, skips and results,
      with every replayed feature verified. */
  lemma ReplayFixpoint(environment: Environment, document: ModelDocument, hydrated: HydratedDocument)
    requires ValidDocument(document) && Hydrate(environment, document) == Success(hydrated)
    ensures ValidCursor(CommitDocument(hydrated))
    ensures Hydrate(environment, CommitDocument(hydrated)) ==
            Success(hydrated.(document := CommitDocument(hydrated), features := VerifyAll(hydrated.features)))
  {
    var session, stage := HydrationRun(environment, document, hydrated);
    var active := document.features[..document.position];
    ReplaySplits(session, active, stage);
    SelectMembers(Ids(active), stage.unavailable, false);
    CommittedRun(session, active, stage, hydrated.features);
    var committed := CommitDocument(hydrated);
    assert committed.features[..document.position] == CommitAll(active, hydrated.features);
    SessionsAgree(environment, document.tables, active, committed.features[..document.position]);
    assert Ids(committed.features[document.position..]) == Ids(document.features[document.position..]);
  }

  lemma SessionsAgree(environment: Environment, tables: Tables, features: seq<FeatureNode>, others: seq<FeatureNode>)
    requires |features| == |others|
    requires forall i :: 0 <= i < |features| ==> others[i].action == features[i].action
    ensures OpenSession(environment, tables, others) == OpenSession(environment, tables, features)
  {
    assert AnyReadsParameters(features) == AnyReadsParameters(others) by {
      if AnyReadsParameters(features) {
        var i :| 0 <= i < |features| && features[i].action.ReadsParameters();
        assert others[i].action.ReadsParameters();
      }
      if AnyReadsParameters(others) {
        var i :| 0 <= i < |others| && others[i].action.ReadsParameters();
        assert features[i].action.ReadsParameters();
      }
    }
  }

  /** Committing what the second run found writes the document it read. */
  lemma CommitIsIdempotent(environment: Environment, document: ModelDocument, hydrated: HydratedDocument)
    requires ValidDocument(document) && Hydrate(environment, document) == Success(hydrated)
    ensures ValidCursor(CommitDocument(hydrated))
    ensures Hydrate(environment, CommitDocument(hydrated)).Success?
    ensures CommitDocument(Hydrate(environment, CommitDocument(hydrated)).value) == CommitDocument(hydrated)
  {
    ReplayFixpoint(environment, document, hydrated);
    var nodes, verified := document.features, VerifyAll(hydrated.features);
    forall i | 0 <= i < |nodes|
      ensures Commit(Commit(nodes[i], hydrated.features), verified) == Commit(nodes[i], hydrated.features)
    {
      VerifiedAssociations(hydrated.features, nodes[i].id);
    }
  }

  lemma {:induction false} VerifiedAssociations(features: seq<HydratedFeature>, id: FeatureId)
    ensures AssociationOf(VerifyAll(features), id) == AssociationOf(features, id)
  {
    if features != [] {
      VerifiedAssociations(features[1..], id);
      assert VerifyAll(features)[1..] == VerifyAll(features[1..]);
    }
  }
}
