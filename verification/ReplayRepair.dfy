/**
  Opening a document whose recipes no longer all build: replay to the end,
  suppress the feature that refused, and try again.
*/
module ReplayRepair {
  import opened Results
  import opened Document
  import opened Replay
  import opened ReplayTimeline
  import opened ReplayFixpoint

  // -- suppressing one feature -----------------------------------------------

  /** Marks dirty every feature from `start` on that is impacted already or
      depends on one that is. */
  function MarkDirty(features: seq<FeatureNode>, start: nat, impacted: set<FeatureId>): (r: seq<FeatureNode>)
    requires start <= |features|
    ensures |r| == |features| && r[..start] == features[..start]
    ensures forall i :: 0 <= i < |r| ==> r[i] == features[i] || r[i] == features[i].(rebuild := Dirty)
    decreases |features| - start
  {
    if start == |features| then features
    else
      var feature := features[start];
      if feature.id in impacted || exists d :: d in feature.dependencies && d in impacted then
        MarkDirty(features[start := feature.(rebuild := Dirty)], start + 1, impacted + {feature.id})
      else MarkDirty(features, start + 1, impacted)
  }

  function Position(features: seq<FeatureNode>, id: FeatureId): (p: nat)
    ensures p <= |features|
    ensures p < |features| ==> features[p].id == id
    ensures forall i :: 0 <= i < p ==> features[i].id != id
  {
    if features == [] then 0
    else if features[0].id == id then 0
    else 1 + Position(features[1..], id)
  }

  function SuppressAt(features: seq<FeatureNode>, at: nat): (r: seq<FeatureNode>)
    requires at < |features|
    ensures |r| == |features| && r[..at] == features[..at]
    ensures r[at].suppressed && !features[at].suppressed ==> r[at].id == features[at].id
    ensures forall i :: 0 <= i < |r| ==> r[i] == features[i].(suppressed := r[i].suppressed, rebuild := r[i].rebuild)
    ensures forall i :: 0 <= i < |r| ==> r[i].suppressed == (i == at || features[i].suppressed)
  {
    var switched := features[at := features[at].(suppressed := true)];
    var marked := MarkDirty(switched, at, {features[at].id});
    assert switched[..at] == features[..at];
    marked
  }

  /** The document with one more feature suppressed; none if there is no such
      feature, it is read-only, or it was suppressed already. */
  function SetSuppressed(document: ModelDocument, id: FeatureId): Option<ModelDocument> {
    var at := Position(document.features, id);
    if at == |document.features| || document.features[at].readOnly || document.features[at].suppressed then None
    else Some(document.(features := SuppressAt(document.features, at)))
  }

  // -- what suppressing marks ------------------------------------------------

  /** Feature `i` is `at` or depends on it, through others or at once. */
  ghost predicate DependsOn(features: seq<FeatureNode>, i: nat, at: nat) {
    exists path :: DependencyPath(features, path) && path[0] == i && path[|path| - 1] == at
  }

  lemma {:induction false} PathDescends(features: seq<FeatureNode>, path: seq<nat>)
    requires UniqueIds(features) && DependenciesPrecede(features) && DependencyPath(features, path)
    ensures path[|path| - 1] <= path[0]
    decreases |path|
  {
    if |path| > 1 {
      assert Precedes(features, features[path[1]].id, path[0]);
      PathRest(features, path);
      PathDescends(features, path[1..]);
    }
  }

  lemma PathRest(features: seq<FeatureNode>, path: seq<nat>)
    requires DependencyPath(features, path) && |path| > 1
    ensures DependencyPath(features, path[1..])
  {
    var rest := path[1..];
    forall k | 0 <= k < |rest| - 1 ensures features[rest[k + 1]].id in features[rest[k]].dependencies {
      assert rest[k] == path[k + 1] && rest[k + 1] == path[k + 2];
    }
  }

  lemma DependsOnItself(features: seq<FeatureNode>, at: nat)
    requires at < |features|
    ensures DependsOn(features, at, at)
  {
    assert DependencyPath(features, [at]);
  }

  lemma DependsThrough(features: seq<FeatureNode>, i: nat, j: nat, at: nat)
    requires i < |features| && j < |features| && features[j].id in features[i].dependencies &&
             DependsOn(features, j, at)
    ensures DependsOn(features, i, at)
  {
    var path :| DependencyPath(features, path) && path[0] == j && path[|path| - 1] == at;
    PrependToPath(features, i, path);
    var longer := [i] + path;
    assert longer[0] == i && longer[|longer| - 1] == at;
  }

  /** A feature that depends on another has that one before it, and reaches it
      through a dependency of its own. */
  lemma DependsStep(features: seq<FeatureNode>, i: nat, at: nat) returns (j: nat)
    requires UniqueIds(features) && DependenciesPrecede(features) && DependsOn(features, i, at) && i != at
    ensures j < i < |features| && features[j].id in features[i].dependencies && DependsOn(features, j, at)
  {
    var path :| DependencyPath(features, path) && path[0] == i && path[|path| - 1] == at;
    assert |path| > 1;
    PathRest(features, path);
    j := path[1];
    assert path[1..][0] == j && path[1..][|path| - 2] == at;
    assert Precedes(features, features[j].id, i);
  }

  lemma DependsAfter(features: seq<FeatureNode>, i: nat, at: nat)
    requires UniqueIds(features) && DependenciesPrecede(features) && DependsOn(features, i, at)
    ensures at <= i < |features|
  {
    var path :| DependencyPath(features, path) && path[0] == i && path[|path| - 1] == at;
    PathDescends(features, path);
  }

  /** The features impacted so far are those before `start` that depend on
      the one at `at`. */
  ghost predicate ImpactedSoFar(features: seq<FeatureNode>, at: nat, start: nat, impacted: set<FeatureId>) {
    && start <= |features|
    && (forall j: nat :: j < start ==> (features[j].id in impacted <==> DependsOn(features, j, at)))
    && (forall j :: start <= j < |features| && j != at ==> features[j].id !in impacted)
    && (start <= at < |features| ==> features[at].id in impacted)
    && (forall x :: x in impacted ==> exists j :: 0 <= j < |features| && features[j].id == x && (j < start || j == at))
  }

  lemma ImpactedNext(features: seq<FeatureNode>, at: nat, start: nat, impacted: set<FeatureId>)
    requires UniqueIds(features) && DependenciesPrecede(features) && at <= start < |features|
    requires ImpactedSoFar(features, at, start, impacted)
    ensures var feature := features[start];
            (feature.id in impacted || exists d :: d in feature.dependencies && d in impacted) <==>
            DependsOn(features, start, at)
  {
    var feature := features[start];
    if feature.id in impacted {
      DependsOnItself(features, at);
    }
    if d :| d in feature.dependencies && d in impacted {
      assert Precedes(features, d, start);
      var j: nat :| j < start && features[j].id == d;
      DependsThrough(features, start, j, at);
    }
    if DependsOn(features, start, at) && start != at {
      var j := DependsStep(features, start, at);
      assert features[j].id in impacted;
    }
  }

  /** The same but for rebuild marks. */
  ghost predicate SameButMarks(features: seq<FeatureNode>, marked: seq<FeatureNode>) {
    |marked| == |features| &&
    forall i :: 0 <= i < |features| ==> marked[i] == features[i].(rebuild := marked[i].rebuild)
  }

  lemma ImpactedWith(features: seq<FeatureNode>, at: nat, start: nat, impacted: set<FeatureId>)
    requires UniqueIds(features) && at <= start < |features|
    requires ImpactedSoFar(features, at, start, impacted) && DependsOn(features, start, at)
    ensures ImpactedSoFar(features, at, start + 1, impacted + {features[start].id})
  {
  }

  lemma ImpactedWithout(features: seq<FeatureNode>, at: nat, start: nat, impacted: set<FeatureId>)
    requires UniqueIds(features) && at <= start < |features|
    requires ImpactedSoFar(features, at, start, impacted) && !DependsOn(features, start, at)
    ensures ImpactedSoFar(features, at, start + 1, impacted)
  {
    DependsOnItself(features, at);
  }

  /** What a feature meets when its turn to be marked comes. */
  predicate Hit(feature: FeatureNode, impacted: set<FeatureId>) {
    feature.id in impacted || exists d :: d in feature.dependencies && d in impacted
  }

  function Grown(impacted: set<FeatureId>, id: FeatureId, hit: bool): set<FeatureId> {
    if hit then impacted + {id} else impacted
  }

  /** From `start` on, these are the features hit. */
  predicate Hits(features: seq<FeatureNode>, start: nat, impacted: set<FeatureId>, hits: seq<bool>)
    requires start <= |features| == |hits|
    decreases |features| - start
  {
    start == |features| ||
    (hits[start] == Hit(features[start], impacted) &&
     Hits(features, start + 1, Grown(impacted, features[start].id, hits[start]), hits))
  }

  lemma HitNext(features: seq<FeatureNode>, at: nat, start: nat, impacted: set<FeatureId>, hit: bool)
    requires UniqueIds(features) && DependenciesPrecede(features) && at <= start < |features|
    requires ImpactedSoFar(features, at, start, impacted) && hit == DependsOn(features, start, at)
    ensures hit == Hit(features[start], impacted)
    ensures ImpactedSoFar(features, at, start + 1, Grown(impacted, features[start].id, hit))
  {
    ImpactedNext(features, at, start, impacted);
    if hit {
      ImpactedWith(features, at, start, impacted);
    } else {
      ImpactedWithout(features, at, start, impacted);
    }
  }

  lemma {:induction false} DependentsAreHit(features: seq<FeatureNode>, at: nat, start: nat, impacted: set<FeatureId>,
                                            hits: seq<bool>)
    requires UniqueIds(features) && DependenciesPrecede(features) && at <= start <= |features| == |hits|
    requires at < |features| && ImpactedSoFar(features, at, start, impacted)
    requires forall i :: 0 <= i < |hits| ==> hits[i] == DependsOn(features, i, at)
    ensures Hits(features, start, impacted, hits)
    decreases |features| - start
  {
    if start < |features| {
      HitNext(features, at, start, impacted, hits[start]);
      DependentsAreHit(features, at, start + 1, Grown(impacted, features[start].id, hits[start]), hits);
    }
  }

  /** The features marked, one by one. */
  lemma {:induction false} MarksTheHit(features: seq<FeatureNode>, marked: seq<FeatureNode>, start: nat,
                                       impacted: set<FeatureId>, hits: seq<bool>, i: nat)
    requires start <= |features| == |hits| && i < |features|
    requires SameButMarks(features, marked) && Hits(features, start, impacted, hits)
    ensures MarkDirty(marked, start, impacted)[i].rebuild == Dirty <==>
            marked[i].rebuild == Dirty || (start <= i && hits[i])
    decreases |features| - start
  {
    if start < |features| {
      assert marked[start].id == features[start].id && marked[start].dependencies == features[start].dependencies;
      var next := if hits[start] then marked[start := marked[start].(rebuild := Dirty)] else marked;
      MarksTheHit(features, next, start + 1, Grown(impacted, features[start].id, hits[start]), hits, i);
    }
  }

  /** Suppressing a feature marks it dirty and all that depends on it, through
      others or at once, and marks nothing else. */
  lemma SuppressingMarks(features: seq<FeatureNode>, at: nat, i: nat)
    requires UniqueIds(features) && DependenciesPrecede(features) && at < |features| && i < |features|
    ensures SuppressAt(features, at)[i].rebuild == Dirty <==>
            features[i].rebuild == Dirty || DependsOn(features, i, at)
  {
    var switched := features[at := features[at].(suppressed := true)];
    var hits := seq(|features|, k requires 0 <= k < |features| => DependsOn(switched, k, at));
    SwitchKeepsPaths(features, switched, at, i);
    NoneBefore(switched, at);
    DependentsAreHit(switched, at, at, {features[at].id}, hits);
    MarksTheHit(switched, switched, at, {features[at].id}, hits, i);
  }

  lemma NoneBefore(features: seq<FeatureNode>, at: nat)
    requires UniqueIds(features) && DependenciesPrecede(features) && at < |features|
    ensures forall j: nat :: j < at ==> !DependsOn(features, j, at)
    ensures ImpactedSoFar(features, at, at, {features[at].id})
  {
    forall j: nat | j < at ensures !DependsOn(features, j, at) {
      if DependsOn(features, j, at) {
        DependsAfter(features, j, at);
      }
    }
  }

  lemma SwitchKeepsPaths(features: seq<FeatureNode>, switched: seq<FeatureNode>, at: nat, i: nat)
    requires UniqueIds(features) && DependenciesPrecede(features) && at < |features|
    requires switched == features[at := features[at].(suppressed := true)]
    ensures UniqueIds(switched) && DependenciesPrecede(switched)
    ensures DependsOn(switched, i, at) <==> DependsOn(features, i, at)
  {
    forall k, d | 0 <= k < |switched| && d in switched[k].dependencies ensures Precedes(switched, d, k) {
      assert Precedes(features, d, k);
      var j :| 0 <= j < k && features[j].id == d;
      assert switched[j].id == d;
    }
    if path :| DependencyPath(features, path) && path[0] == i && path[|path| - 1] == at {
      assert DependencyPath(switched, path);
    }
    if path :| DependencyPath(switched, path) && path[0] == i && path[|path| - 1] == at {
      assert DependencyPath(features, path);
    }
  }

  function Unsuppressed(features: seq<FeatureNode>): nat {
    if features == [] then 0
    else (if features[0].suppressed then 0 else 1) + Unsuppressed(features[1..])
  }

  lemma {:induction false} SuppressingShrinks(features: seq<FeatureNode>, others: seq<FeatureNode>, at: nat)
    requires at < |features| == |others| && !features[at].suppressed
    requires forall i :: 0 <= i < |features| ==> others[i].suppressed == (i == at || features[i].suppressed)
    ensures Unsuppressed(others) + 1 == Unsuppressed(features)
  {
    if at == 0 {
      SameSwitches(features[1..], others[1..]);
    } else {
      SuppressingShrinks(features[1..], others[1..], at - 1);
    }
  }

  lemma {:induction false} SameSwitches(features: seq<FeatureNode>, others: seq<FeatureNode>)
    requires |features| == |others|
    requires forall i :: 0 <= i < |features| ==> others[i].suppressed == features[i].suppressed
    ensures Unsuppressed(others) == Unsuppressed(features)
  {
    if features != [] {
      SameSwitches(features[1..], others[1..]);
    }
  }

  // -- opening ---------------------------------------------------------------

  function AtEnd(document: ModelDocument): (r: ModelDocument)
    ensures ValidCursor(r)
  {
    document.(position := |document.features|)
  }

  datatype Opening = Opening(hydrated: HydratedDocument, document: ModelDocument, unbuildable: seq<FeatureId>)

  /** One attempt: the document opened, a refusal nothing can be done about,
      or the document to try next with one more feature off. */
  datatype Attempt =
    | Opened(hydrated: HydratedDocument)
    | GaveUp(error: HydrationError)
    | Retry(id: FeatureId, next: ModelDocument)

  function TryOpen(environment: Environment, document: ModelDocument): (r: Attempt)
    ensures r.Retry? ==> Unsuppressed(r.next.features) < Unsuppressed(document.features)
  {
    match Hydrate(environment, AtEnd(document))
    case Success(hydrated) => Opened(hydrated)
    case Failure(error) =>
      match error.UnbuildableFeature()
      case None => GaveUp(error)
      case Some(id) =>
        match SetSuppressed(document, id)
        case None => GaveUp(error)
        case Some(suppressed) =>
          SuppressingShrinks(document.features, suppressed.features, Position(document.features, id));
          Retry(id, suppressed)
  }

  function After(unbuildable: seq<FeatureId>, rest: Result<Opening, HydrationError>): Result<Opening, HydrationError> {
    if rest.Failure? then rest else Success(rest.value.(unbuildable := unbuildable + rest.value.unbuildable))
  }

  /** What opening comes to once this attempt at the document has been made. */
  function Resume(environment: Environment, document: ModelDocument, attempt: Attempt): Result<Opening, HydrationError>
    decreases if attempt.Retry? then Unsuppressed(attempt.next.features) + 1 else 0
  {
    match attempt
    case Opened(hydrated) => Success(Opening(hydrated, document, []))
    case GaveUp(error) => Failure(error)
    case Retry(id, next) => After([id], Resume(environment, next, TryOpen(environment, next)))
  }

  /** Replaying to the end, suppressing what refuses, until nothing does. */
  function Open(environment: Environment, document: ModelDocument): Result<Opening, HydrationError> {
    Resume(environment, document, TryOpen(environment, document))
  }

  lemma AfterNothing(rest: Result<Opening, HydrationError>)
    ensures After([], rest) == rest
  {
    if rest.Success? {
      assert [] + rest.value.unbuildable == rest.value.unbuildable;
    }
  }

  lemma AfterTwice(first: seq<FeatureId>, second: seq<FeatureId>, rest: Result<Opening, HydrationError>)
    ensures After(first, After(second, rest)) == After(first + second, rest)
  {
    if rest.Success? {
      assert first + (second + rest.value.unbuildable) == (first + second) + rest.value.unbuildable;
    }
  }

  lemma RetryMovesOn(environment: Environment, document: ModelDocument, attempt: Attempt, next: Attempt,
                     unbuildable: seq<FeatureId>)
    requires attempt.Retry? && next == TryOpen(environment, attempt.next)
    ensures After(unbuildable, Resume(environment, document, attempt)) ==
            After(unbuildable + [attempt.id], Resume(environment, attempt.next, next))
  {
    AfterTwice(unbuildable, [attempt.id], Resume(environment, attempt.next, next));
  }

  method AttemptOpening(environment: Environment, document: ModelDocument) returns (r: Attempt)
    ensures r == TryOpen(environment, document)
  {
    var attempt := HydrateModelDocument(environment, AtEnd(document));
    if attempt.Success? {
      return Opened(attempt.value);
    }
    var refused := attempt.error.UnbuildableFeature();
    if refused.None? {
      return GaveUp(attempt.error);
    }
    var suppressed := SetSuppressed(document, refused.value);
    if suppressed.None? {
      return GaveUp(attempt.error);
    }
    return Retry(refused.value, suppressed.value);
  }

  /** The loop behind opening a document. */
  method HydrateSuppressingUnbuildable(environment: Environment, document: ModelDocument)
    returns (r: Result<Opening, HydrationError>)
    ensures r == Open(environment, document)
  {
    var current, unbuildable := document, [];
    var attempt := AttemptOpening(environment, document);
    AfterNothing(Resume(environment, document, attempt));
    while attempt.Retry?
      invariant Open(environment, document) == After(unbuildable, Resume(environment, current, attempt))
      decreases if attempt.Retry? then Unsuppressed(attempt.next.features) + 1 else 0
    {
      var next := AttemptOpening(environment, attempt.next);
      RetryMovesOn(environment, current, attempt, next, unbuildable);
      current, unbuildable := attempt.next, unbuildable + [attempt.id];
      attempt := next;
    }
    if attempt.GaveUp? {
      return Failure(attempt.error);
    }
    assert unbuildable + [] == unbuildable;
    return Success(Opening(attempt.hydrated, current, unbuildable));
  }

  // -- what opening does -----------------------------------------------------

  lemma StepBlamesItsFeature(session: Session, stage: Stage, feature: FeatureNode)
    requires feature.action.ReadsParameters() ==> session.parameters.Some?
    requires Step(session, stage, feature).Failure?
    requires Step(session, stage, feature).error.UnbuildableFeature().Some?
    ensures Step(session, stage, feature).error.UnbuildableFeature() == Some(feature.id)
    ensures !feature.suppressed
  {
    var inputId := ReplayInput(session.tables, feature, stage);
    if inputId.Success? && inputId.value in stage.snapshots {
      var input := stage.snapshots[inputId.value];
      var action := ResolveAction(session, feature, input);
      if action.Success? && action.value.RunMany? {
        ChainBlamesItsFeature(session, feature.id, input, action.value.chain);
      }
    }
  }

  lemma {:induction false} ChainBlamesItsFeature(session: Session, id: FeatureId, input: Snapshot, chain: seq<Command>)
    ensures RunChain(session, id, input, chain).Failure? ==>
              RunChain(session, id, input, chain).error.UnbuildableFeature() == Some(id)
    decreases |chain|
  {
    if chain != [] {
      var first := ExecuteFeature(session, id, input, chain[0]);
      if first.Success? && |chain| > 1 {
        ChainBlamesItsFeature(session, id, first.value.snapshot, chain[1..]);
      }
    }
  }

  lemma FailureCarriesOn(session: Session, features: seq<FeatureNode>, n: nat)
    requires 0 < n <= |features| && ParametersReady(session, features)
    requires ReplayAll(session, features[..n - 1]).Failure?
    ensures ReplayAll(session, features[..n]) == ReplayAll(session, features[..n - 1])
  {
    assert features[..n][..n - 1] == features[..n - 1];
  }

  lemma {:induction false} FirstFailure(results: seq<Result<Stage, HydrationError>>, from: nat, n: nat)
    returns (at: nat)
    requires from <= n < |results| && results[from].Success? && results[n].Failure?
    requires forall k :: 0 < k < |results| && results[k - 1].Failure? ==> results[k] == results[k - 1]
    ensures from <= at < n && results[at].Success? && results[at + 1] == results[n]
  {
    at := n - 1;
    if results[at].Failure? {
      at := FirstFailure(results, from, n - 1);
    }
  }

  /** The outcomes of replaying each prefix. */
  function Outcomes(session: Session, features: seq<FeatureNode>): (results: seq<Result<Stage, HydrationError>>)
    requires ParametersReady(session, features)
    ensures |results| == |features| + 1
    ensures forall n :: 0 <= n <= |features| ==> results[n] == ReplayAll(session, features[..n])
  {
    seq(|features| + 1, n requires 0 <= n <= |features| => ReplayAll(session, features[..n]))
  }

  lemma OutcomesStick(session: Session, features: seq<FeatureNode>)
    requires ParametersReady(session, features)
    ensures var results := Outcomes(session, features);
            forall n :: 0 < n < |results| && results[n - 1].Failure? ==> results[n] == results[n - 1]
  {
    var results := Outcomes(session, features);
    forall n | 0 < n < |results| && results[n - 1].Failure? ensures results[n] == results[n - 1] {
      FailureCarriesOn(session, features, n);
    }
  }

  lemma FirstRefused(session: Session, features: seq<FeatureNode>, from: nat) returns (at: nat)
    requires from <= |features| && ParametersReady(session, features)
    requires ReplayAll(session, features[..from]).Success? && ReplayAll(session, features).Failure?
    ensures from <= at < |features| && features[..at + 1][..at] == features[..at]
    ensures ReplayAll(session, features[..at]).Success?
    ensures ReplayAll(session, features[..at + 1]) == ReplayAll(session, features)
  {
    assert features[..|features|] == features;
    OutcomesStick(session, features);
    at := FirstFailure(Outcomes(session, features), from, |features|);
  }

  lemma LastIsBlamed(session: Session, features: seq<FeatureNode>)
    requires features != [] && ParametersReady(session, features)
    requires ReplayAll(session, features[..|features| - 1]).Success?
    requires ReplayAll(session, features).Failure?
    requires ReplayAll(session, features).error.UnbuildableFeature().Some?
    ensures ReplayAll(session, features).error.UnbuildableFeature() == Some(features[|features| - 1].id)
    ensures !features[|features| - 1].suppressed
  {
    StepBlamesItsFeature(session, ReplayAll(session, features[..|features| - 1]).value, features[|features| - 1]);
  }

  /** A refusal names the feature at the first position that does not replay,
      and that position is not before one already known to replay. */
  lemma RefusalIsFirstFailure(session: Session, features: seq<FeatureNode>, from: nat) returns (at: nat)
    requires from <= |features| && ParametersReady(session, features)
    requires ReplayAll(session, features[..from]).Success?
    requires ReplayAll(session, features).Failure?
    requires ReplayAll(session, features).error.UnbuildableFeature().Some?
    ensures from <= at < |features|
    ensures ReplayAll(session, features[..at]).Success?
    ensures ReplayAll(session, features).error.UnbuildableFeature() == Some(features[at].id)
    ensures !features[at].suppressed
  {
    at := FirstRefused(session, features, from);
    LastIsBlamed(session, features[..at + 1]);
  }

  lemma SuppressedReplays(session: Session, features: seq<FeatureNode>, at: nat)
    requires at < |features| && ParametersReady(session, features)
    requires ReplayAll(session, features[..at]).Success? && !features[at].suppressed
    ensures ParametersReady(session, SuppressAt(features, at)[..at + 1])
    ensures ReplayAll(session, SuppressAt(features, at)[..at + 1]).Success?
  {
    var suppressed := SuppressAt(features, at);
    assert suppressed[..at + 1][..at] == features[..at];
    assert suppressed[..at + 1][at].suppressed;
  }

  /** These ids occur in the timeline in this order, from a position on. */
  ghost predicate InTimelineOrder(timeline: seq<FeatureId>, ids: seq<FeatureId>, from: nat)
    decreases |ids|
  {
    ids == [] ||
    exists at :: from <= at < |timeline| && timeline[at] == ids[0] && InTimelineOrder(timeline, ids[1..], at + 1)
  }

  /** The features each earlier one refused before are switched off, the rest
      keep their switches, and nothing but switches and rebuild marks moves. */
  ghost predicate OnlySuppresses(before: seq<FeatureNode>, after: seq<FeatureNode>, ids: seq<FeatureId>) {
    && |after| == |before|
    && (forall i :: 0 <= i < |before| ==>
          && after[i] == before[i].(suppressed := after[i].suppressed, rebuild := after[i].rebuild)
          && after[i].suppressed == (before[i].suppressed || before[i].id in ids))
    && (forall i :: 0 <= i < |before| && before[i].id in ids ==> !before[i].suppressed && !before[i].readOnly)
  }

  lemma OpenStep(environment: Environment, document: ModelDocument, session: Session, from: nat, id: FeatureId)
    returns (at: nat)
    requires UniqueIds(document.features) && from <= |document.features|
    requires OpenSession(environment, document.tables, document.features) == Success(session)
    requires ParametersReady(session, document.features)
    requires ReplayAll(session, document.features[..from]).Success?
    requires Hydrate(environment, AtEnd(document)).Failure?
    requires Hydrate(environment, AtEnd(document)).error.UnbuildableFeature() == Some(id)
    requires SetSuppressed(document, id).Some?
    ensures from <= at < |document.features| && document.features[at].id == id
    ensures !document.features[at].readOnly && !document.features[at].suppressed
    ensures SetSuppressed(document, id).value.features == SuppressAt(document.features, at)
    ensures ParametersReady(session, SuppressAt(document.features, at)[..at + 1])
    ensures ReplayAll(session, SuppressAt(document.features, at)[..at + 1]).Success?
  {
    assert document.features[..|document.features|] == document.features;
    at := RefusalIsFirstFailure(session, document.features, from);
    assert Position(document.features, id) == at;
    SuppressedReplays(session, document.features, at);
  }

  /** What opening does, from a position up to which the timeline replays. */
  ghost predicate OpensForward(environment: Environment, document: ModelDocument, opening: Opening, from: nat) {
    && InTimelineOrder(Ids(document.features), opening.unbuildable, from)
    && OnlySuppresses(document.features, opening.document.features, opening.unbuildable)
    && opening.document == document.(features := opening.document.features)
    && Hydrate(environment, AtEnd(opening.document)) == Success(opening.hydrated)
  }

  lemma OpensOneBefore(environment: Environment, document: ModelDocument, next: ModelDocument, rest: Opening,
                       opening: Opening, at: nat, from: nat)
    requires from <= at < |document.features| && UniqueIds(document.features)
    requires next == document.(features := SuppressAt(document.features, at))
    requires !document.features[at].suppressed && !document.features[at].readOnly
    requires OpensForward(environment, next, rest, at + 1)
    requires opening == rest.(unbuildable := [document.features[at].id] + rest.unbuildable)
    ensures OpensForward(environment, document, opening, from)
  {
    OpenedOrder(document.features, next.features, rest.document.features, rest.unbuildable, at, from);
  }

  lemma OpenUnfolds(environment: Environment, document: ModelDocument)
    requires Open(environment, document).Success?
    ensures var attempt := Hydrate(environment, AtEnd(document));
            var opening := Open(environment, document).value;
            if attempt.Success? then opening == Opening(attempt.value, document, [])
            else
              && attempt.error.UnbuildableFeature().Some?
              && SetSuppressed(document, attempt.error.UnbuildableFeature().value).Some?
              && var id := attempt.error.UnbuildableFeature().value;
                 var next := SetSuppressed(document, id).value;
                 && Open(environment, next).Success?
                 && var rest := Open(environment, next).value;
                    opening == rest.(unbuildable := [id] + rest.unbuildable)
  {
  }

  /** The timeline replays up to a position. */
  ghost predicate OpenUpTo(environment: Environment, document: ModelDocument, session: Session, from: nat) {
    && UniqueIds(document.features) && from <= |document.features|
    && OpenSession(environment, document.tables, document.features) == Success(session)
    && ParametersReady(session, document.features)
    && ReplayAll(session, document.features[..from]).Success?
  }

  lemma OpenRetries(environment: Environment, document: ModelDocument, session: Session, from: nat, id: FeatureId,
                    next: ModelDocument)
    returns (at: nat)
    requires OpenUpTo(environment, document, session, from)
    requires Hydrate(environment, AtEnd(document)).Failure?
    requires Hydrate(environment, AtEnd(document)).error.UnbuildableFeature() == Some(id)
    requires SetSuppressed(document, id) == Some(next)
    ensures from <= at < |document.features| && document.features[at].id == id
    ensures !document.features[at].suppressed && !document.features[at].readOnly
    ensures next == document.(features := SuppressAt(document.features, at))
    ensures OpenUpTo(environment, next, session, at + 1)
    ensures Unsuppressed(next.features) < Unsuppressed(document.features)
  {
    at := OpenStep(environment, document, session, from, id);
    SuppressingShrinks(document.features, next.features, at);
    SessionsAgree(environment, document.tables, document.features, next.features);
  }

  lemma OpenAdvances(environment: Environment, document: ModelDocument, session: Session, from: nat, opening: Opening)
    returns (at: nat, next: ModelDocument, rest: Opening)
    requires OpenUpTo(environment, document, session, from)
    requires Open(environment, document) == Success(opening) && Hydrate(environment, AtEnd(document)).Failure?
    ensures OpenUpTo(environment, next, session, at + 1) && Open(environment, next) == Success(rest)
    ensures Unsuppressed(next.features) < Unsuppressed(document.features)
    ensures OpensForward(environment, next, rest, at + 1) ==> OpensForward(environment, document, opening, from)
  {
    OpenUnfolds(environment, document);
    var id := Hydrate(environment, AtEnd(document)).error.UnbuildableFeature().value;
    next := SetSuppressed(document, id).value;
    rest := Open(environment, next).value;
    at := OpenRetries(environment, document, session, from, id, next);
    if OpensForward(environment, next, rest, at + 1) {
      OpensOneBefore(environment, document, next, rest, opening, at, from);
    }
  }

  lemma {:induction false} OpenFrom(environment: Environment, document: ModelDocument, session: Session, from: nat,
                                    opening: Opening)
    requires OpenUpTo(environment, document, session, from) && Open(environment, document) == Success(opening)
    ensures OpensForward(environment, document, opening, from)
    decreases Unsuppressed(document.features)
  {
    if Hydrate(environment, AtEnd(document)).Failure? {
      var at, next, rest := OpenAdvances(environment, document, session, from, opening);
      OpenFrom(environment, next, session, at + 1, rest);
    } else {
      OpenUnfolds(environment, document);
    }
  }

  lemma OpenedOrder(before: seq<FeatureNode>, middle: seq<FeatureNode>, after: seq<FeatureNode>, ids: seq<FeatureId>,
                    at: nat, from: nat)
    requires from <= at < |before| && UniqueIds(before)
    requires middle == SuppressAt(before, at) && !before[at].suppressed && !before[at].readOnly
    requires InTimelineOrder(Ids(middle), ids, at + 1)
    requires OnlySuppresses(middle, after, ids)
    ensures InTimelineOrder(Ids(before), [before[at].id] + ids, from)
    ensures OnlySuppresses(before, after, [before[at].id] + ids)
  {
    assert Ids(middle) == Ids(before);
    assert ([before[at].id] + ids)[1..] == ids;
    assert Ids(before)[at] == before[at].id;
  }

  /** Opening only ever suppresses, in timeline order, features that were
      switched on and may be edited; it moves nothing but those switches and
      rebuild marks; and the opened document hydrates to the end. */
  lemma OpeningSuppressesForward(environment: Environment, document: ModelDocument)
    requires ValidDocument(document) && Open(environment, document).Success?
    ensures var opening := Open(environment, document).value;
            && InTimelineOrder(Ids(document.features), opening.unbuildable, 0)
            && OnlySuppresses(document.features, opening.document.features, opening.unbuildable)
            && opening.document.position == document.position
            && Hydrate(environment, AtEnd(opening.document)) == Success(opening.hydrated)
  {
    assert document.features[..|document.features|] == document.features;
    if Hydrate(environment, AtEnd(document)).Failure? {
      var id := Hydrate(environment, AtEnd(document)).error.UnbuildableFeature().value;
    }
    var session := OpenSession(environment, document.tables, document.features).value;
    assert document.features[..0] == [];
    OpenFrom(environment, document, session, 0, Open(environment, document).value);
  }
}
