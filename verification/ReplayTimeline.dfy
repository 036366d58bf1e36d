/**
  What one run keeps about the timeline: which features are skipped, and how
  a run at one history position contains the run at every earlier one.
*/
module ReplayTimeline {
  import opened Results
  import opened Document
  import opened Replay

  // -- branches --------------------------------------------------------------

  ghost predicate Ascending(items: seq<nat>) {
    forall i, j :: 0 <= i < j < |items| ==> items[i] < items[j]
  }

  lemma LeastLeads(first: nat, rest: seq<nat>)
    requires Ascending(rest) && forall y :: y in rest ==> first < y
    ensures Ascending([first] + rest)
  {
    assert forall i :: 0 <= i < |rest| ==> rest[i] in rest;
  }

  lemma LeastIsFirst(ordered: seq<nat>)
    requires Ascending(ordered) && ordered != []
    ensures ordered == [ordered[0]] + ordered[1..] && Ascending(ordered[1..])
    ensures forall y :: y in ordered[1..] ==> ordered[0] < y
  {
  }

  lemma {:induction false} InsertKeepsOrder(ordered: seq<nat>, x: nat)
    requires Ascending(ordered)
    ensures Ascending(Insert(ordered, x))
    ensures forall y :: y in Insert(ordered, x) <==> y == x || y in ordered
  {
    if ordered != [] {
      LeastIsFirst(ordered);
      if x < ordered[0] {
        LeastLeads(x, ordered);
      } else if x > ordered[0] {
        InsertKeepsOrder(ordered[1..], x);
        LeastLeads(ordered[0], Insert(ordered[1..], x));
      }
    }
  }

  /** `Ordered` is the ordered set of the items: ascending, so without
      repeats, and with the same members. */
  lemma {:induction false} OrderedIsTheOrderedSet(items: seq<nat>)
    ensures Ascending(Ordered(items))
    ensures forall x :: x in Ordered(items) <==> x in items
  {
    if items != [] {
      var init := items[..|items| - 1];
      OrderedIsTheOrderedSet(init);
      InsertKeepsOrder(Ordered(init), items[|items| - 1]);
      assert items == init + [items[|items| - 1]];
    }
  }

  lemma SharedMember(a: seq<nat>, b: seq<nat>)
    requires a != [] && forall x :: x in a ==> x in b
    ensures b != []
  {
    assert a[0] in b;
  }

  /** Two ascending lists with the same members are the same list, so the
      order in which a feature names its bodies never matters. */
  lemma {:induction false} AscendingIsUnique(a: seq<nat>, b: seq<nat>)
    requires Ascending(a) && Ascending(b)
    requires forall x :: x in a <==> x in b
    ensures a == b
  {
    if a != [] {
      SharedMember(a, b);
    }
    if b != [] {
      SharedMember(b, a);
    }
    if a != [] {
      assert a[0] in b && b[0] in a;
      assert a[0] == b[0];
      forall x ensures x in a[1..] <==> x in b[1..] {
        assert x in a <==> x == a[0] || x in a[1..];
        assert x in b <==> x == b[0] || x in b[1..];
      }
      AscendingIsUnique(a[1..], b[1..]);
    }
  }

  /** A shared head exists exactly when every body has a head and all those
      heads are one snapshot. */
  lemma SharedHeadIsTheCommonHead(id: FeatureId, bodies: seq<BodyId>, heads: map<BodyId, SnapshotId>, head: SnapshotId)
    requires bodies != []
    ensures SharedHead(id, bodies, heads) == Success(head) <==>
            forall b :: b in bodies ==> b in heads && heads[b] == head
  {
    FirstHeadlessIsComplete(bodies, heads);
    if forall b :: b in bodies ==> b in heads {
      var values := HeadsOf(bodies, heads);
      OrderedIsTheOrderedSet(values);
      assert values[0] == heads[bodies[0]] && values[0] in Ordered(values);
      forall b | b in bodies ensures heads[b] in Ordered(values) {
        var i :| 0 <= i < |bodies| && bodies[i] == b;
        assert values[i] == heads[b];
      }
      if forall b :: b in bodies ==> heads[b] == head {
        AscendingIsUnique(Ordered(values), [head]);
      }
    }
  }

  // -- suppression -----------------------------------------------------------

  /** The last component record that names the feature as its creator. */
  ghost predicate LastRecord(components: seq<Component>, feature: FeatureId, i: nat) {
    && i < |components| && components[i].createdBy == feature
    && (forall j :: i < j < |components| ==> components[j].createdBy != feature)
  }

  /** Suppressed by its own switch or by the component it belongs to. */
  ghost predicate Omitted(tables: Tables, feature: FeatureNode) {
    || feature.suppressed
    || (exists i: nat :: LastRecord(tables.components, feature.id, i) && tables.components[i].suppressed)
  }

  lemma {:induction false} ComponentOfIsLast(components: seq<Component>, feature: FeatureId)
    ensures var c := ComponentOf(components, feature);
            && (c.None? <==> forall i :: 0 <= i < |components| ==> components[i].createdBy != feature)
            && (c.Some? ==> exists i: nat :: LastRecord(components, feature, i) && components[i] == c.value)
  {
    if components != [] {
      var init, n := components[..|components| - 1], |components| - 1;
      ComponentOfIsLast(init, feature);
      if components[n].createdBy == feature {
        assert LastRecord(components, feature, n);
      } else if ComponentOf(init, feature).Some? {
        var i: nat :| LastRecord(init, feature, i) && init[i] == ComponentOf(init, feature).value;
        assert LastRecord(components, feature, i) && components[i] == init[i];
      }
    }
  }

  /** There is one last record at most. */
  lemma LastRecordIs(components: seq<Component>, feature: FeatureId, i: nat)
    requires LastRecord(components, feature, i)
    ensures ComponentOf(components, feature) == Some(components[i])
  {
    ComponentOfIsLast(components, feature);
    var j: nat :| LastRecord(components, feature, j) && components[j] == ComponentOf(components, feature).value;
    assert i == j;
  }

  lemma OmittedIs(tables: Tables, feature: FeatureNode)
    ensures Omitted(tables, feature) <==>
            feature.suppressed ||
            (ComponentOf(tables.components, feature.id).Some? &&
             ComponentOf(tables.components, feature.id).value.suppressed)
  {
    ComponentOfIsLast(tables.components, feature.id);
    if i: nat :| LastRecord(tables.components, feature.id, i) && tables.components[i].suppressed {
      LastRecordIs(tables.components, feature.id, i);
    }
  }

  /** Timeline positions, each depending on the next. */
  ghost predicate DependencyPath(features: seq<FeatureNode>, path: seq<nat>) {
    && path != []
    && (forall k :: 0 <= k < |path| ==> path[k] < |features|)
    && (forall k :: 0 <= k < |path| - 1 ==> features[path[k + 1]].id in features[path[k]].dependencies)
  }

  ghost predicate ReachesOmitted(tables: Tables, features: seq<FeatureNode>, i: nat) {
    exists path :: DependencyPath(features, path) && path[0] == i && Omitted(tables, features[path[|path| - 1]])
  }

  lemma {:induction false} FirstUnavailableIsComplete(dependencies: seq<FeatureId>, unavailable: set<FeatureId>)
    ensures FirstUnavailable(dependencies, unavailable).Some? <==> exists d :: d in dependencies && d in unavailable
  {
    if dependencies != [] {
      FirstUnavailableIsComplete(dependencies[1..], unavailable);
      assert forall d :: d in dependencies <==> d == dependencies[0] || d in dependencies[1..];
    }
  }

  lemma {:induction false} SkippedBecause(tables: Tables, feature: FeatureNode, unavailable: set<FeatureId>)
    ensures SkipReasonFor(tables, feature, unavailable).Some? <==>
            Omitted(tables, feature) || exists d :: d in feature.dependencies && d in unavailable
  {
    FirstUnavailableIsComplete(feature.dependencies, unavailable);
    OmittedIs(tables, feature);
  }

  function FeatureIds(features: seq<HydratedFeature>): (r: seq<FeatureId>)
    ensures |r| == |features| && forall i :: 0 <= i < |r| ==> r[i] == features[i].feature
  {
    seq(|features|, i requires 0 <= i < |features| => features[i].feature)
  }

  function SkippedIds(skipped: seq<HydratedSkip>): (r: seq<FeatureId>)
    ensures |r| == |skipped| && forall i :: 0 <= i < |r| ==> r[i] == skipped[i].feature
  {
    seq(|skipped|, i requires 0 <= i < |skipped| => skipped[i].feature)
  }

  function SkippedSet(skipped: seq<HydratedSkip>): set<FeatureId> {
    set id | id in SkippedIds(skipped)
  }

  /** The ids in or outside a set, keeping their order. */
  function Select(ids: seq<FeatureId>, chosen: set<FeatureId>, inside: bool): seq<FeatureId> {
    if ids == [] then []
    else
      var last := ids[|ids| - 1];
      Select(ids[..|ids| - 1], chosen, inside) + (if (last in chosen) == inside then [last] else [])
  }

  lemma {:induction false} SelectIgnoresStrangers(ids: seq<FeatureId>, chosen: set<FeatureId>, extra: FeatureId,
                                                  inside: bool)
    requires extra !in ids
    ensures Select(ids, chosen + {extra}, inside) == Select(ids, chosen, inside)
  {
    if ids != [] {
      SelectIgnoresStrangers(ids[..|ids| - 1], chosen, extra, inside);
    }
  }

  lemma {:induction false} SelectMembers(ids: seq<FeatureId>, chosen: set<FeatureId>, inside: bool)
    ensures forall x :: x in Select(ids, chosen, inside) <==> x in ids && ((x in chosen) == inside)
  {
    if ids != [] {
      SelectMembers(ids[..|ids| - 1], chosen, inside);
      assert ids == ids[..|ids| - 1] + [ids[|ids| - 1]];
    }
  }

  /** Replayed and skipped features split the timeline by the unavailable
      set, each in timeline order. */
  ghost predicate Splits(features: seq<FeatureNode>, stage: Stage) {
    && FeatureIds(stage.features) == Select(Ids(features), stage.unavailable, false)
    && SkippedIds(stage.skipped) == Select(Ids(features), stage.unavailable, true)
    && (forall u :: u in stage.unavailable ==> u in Ids(features))
  }

  lemma SplitsStep(session: Session, features: seq<FeatureNode>, before: Stage, after: Stage)
    requires features != [] && UniqueIds(features) && ParametersReady(session, features)
    requires Splits(features[..|features| - 1], before)
    requires Step(session, before, features[|features| - 1]) == Success(after)
    ensures Splits(features, after)
  {
    var init, last := features[..|features| - 1], features[|features| - 1];
    assert Ids(features) == Ids(init) + [last.id];
    assert Ids(features)[..|features| - 1] == Ids(init);
    assert last.id !in Ids(init);
    if SkipReasonFor(session.tables, last, before.unavailable).Some? {
      SelectIgnoresStrangers(Ids(init), before.unavailable, last.id, true);
      SelectIgnoresStrangers(Ids(init), before.unavailable, last.id, false);
      assert SkippedIds(after.skipped) == SkippedIds(before.skipped) + [last.id];
    } else {
      assert last.id !in before.unavailable;
      assert FeatureIds(after.features) == FeatureIds(before.features) + [last.id];
    }
  }

  lemma {:induction false} ReplaySplits(session: Session, features: seq<FeatureNode>, stage: Stage)
    requires UniqueIds(features) && ParametersReady(session, features)
    requires ReplayAll(session, features) == Success(stage)
    ensures Splits(features, stage)
  {
    if features != [] {
      var before := ReplayAll(session, features[..|features| - 1]).value;
      ReplaySplits(session, features[..|features| - 1], before);
      SplitsStep(session, features, before, stage);
    }
  }

  /** What one step does to the unavailable set. */
  lemma StepUnavailable(session: Session, before: Stage, feature: FeatureNode, after: Stage)
    requires feature.action.ReadsParameters() ==> session.parameters.Some?
    requires Step(session, before, feature) == Success(after)
    ensures after.unavailable ==
            if Omitted(session.tables, feature) || (exists d :: d in feature.dependencies && d in before.unavailable)
            then before.unavailable + {feature.id} else before.unavailable
  {
    SkippedBecause(session.tables, feature, before.unavailable);
  }

  /** The unavailable set after these features, by the rule alone. */
  ghost function Unavailable(tables: Tables, features: seq<FeatureNode>): set<FeatureId> {
    if features == [] then {}
    else
      var before := Unavailable(tables, features[..|features| - 1]);
      var last := features[|features| - 1];
      if Omitted(tables, last) || (exists d :: d in last.dependencies && d in before)
      then before + {last.id} else before
  }

  lemma {:induction false} ReplayUnavailable(session: Session, features: seq<FeatureNode>, stage: Stage)
    requires ParametersReady(session, features)
    requires ReplayAll(session, features) == Success(stage)
    ensures stage.unavailable == Unavailable(session.tables, features)
  {
    if features != [] {
      var before := ReplayAll(session, features[..|features| - 1]).value;
      ReplayUnavailable(session, features[..|features| - 1], before);
      StepUnavailable(session, before, features[|features| - 1], stage);
    }
  }

  lemma {:induction false} UnavailableAreListed(tables: Tables, features: seq<FeatureNode>)
    ensures forall u :: u in Unavailable(tables, features) ==> u in Ids(features)
  {
    if features != [] {
      UnavailableAreListed(tables, features[..|features| - 1]);
      assert Ids(features) == Ids(features[..|features| - 1]) + [features[|features| - 1].id];
    }
  }

  lemma DependenciesPrecedeInPrefix(features: seq<FeatureNode>, k: nat)
    requires DependenciesPrecede(features) && k <= |features|
    ensures DependenciesPrecede(features[..k])
  {
    forall i, d | 0 <= i < k && d in features[..k][i].dependencies ensures Precedes(features[..k], d, i) {
      assert Precedes(features, d, i);
    }
  }

  /** A feature becomes unavailable when it is omitted or when something it
      depends on already is. */
  lemma {:induction false} UnavailableMeans(tables: Tables, features: seq<FeatureNode>, i: nat)
    requires UniqueIds(features) && DependenciesPrecede(features)
    requires i < |features|
    ensures features[i].id in Unavailable(tables, features) <==>
              Omitted(tables, features[i]) ||
              exists d :: d in features[i].dependencies && d in Unavailable(tables, features)
  {
    var n := |features| - 1;
    var init, last := features[..n], features[n];
    UnavailableAreListed(tables, init);
    assert last.id !in Ids(init);
    if i < n {
      DependenciesPrecedeInPrefix(features, n);
      UnavailableMeans(tables, init, i);
    }
    forall d | d in features[i].dependencies
      ensures d in Unavailable(tables, init) <==> d in Unavailable(tables, features)
    {
      assert Precedes(features, d, i);
    }
  }

  lemma PrependToPath(features: seq<FeatureNode>, i: nat, path: seq<nat>)
    requires DependencyPath(features, path) && i < |features|
    requires features[path[0]].id in features[i].dependencies
    ensures DependencyPath(features, [i] + path)
  {
    var longer := [i] + path;
    forall k | 0 <= k < |longer| - 1 ensures features[longer[k + 1]].id in features[longer[k]].dependencies {
      if k > 0 {
        assert longer[k] == path[k - 1] && longer[k + 1] == path[k];
      }
    }
  }

  lemma UnavailableReaches(tables: Tables, features: seq<FeatureNode>, i: nat)
    requires UniqueIds(features) && DependenciesPrecede(features)
    requires i < |features| && features[i].id in Unavailable(tables, features)
    ensures ReachesOmitted(tables, features, i)
    decreases i
  {
    UnavailableMeans(tables, features, i);
    if Omitted(tables, features[i]) {
      assert DependencyPath(features, [i]);
    } else {
      var d :| d in features[i].dependencies && d in Unavailable(tables, features);
      assert Precedes(features, d, i);
      var j :| 0 <= j < i && features[j].id == d;
      UnavailableReaches(tables, features, j);
      var path :| DependencyPath(features, path) && path[0] == j && Omitted(tables, features[path[|path| - 1]]);
      PrependToPath(features, i, path);
      assert ([i] + path)[|path|] == path[|path| - 1];
    }
  }

  lemma {:induction false} ReachingIsUnavailable(tables: Tables, features: seq<FeatureNode>, path: seq<nat>)
    requires UniqueIds(features) && DependenciesPrecede(features)
    requires DependencyPath(features, path) && Omitted(tables, features[path[|path| - 1]])
    ensures features[path[0]].id in Unavailable(tables, features)
    decreases |path|
  {
    UnavailableMeans(tables, features, path[0]);
    if |path| > 1 {
      var rest := path[1..];
      forall k | 0 <= k < |rest| - 1 ensures features[rest[k + 1]].id in features[rest[k]].dependencies {
        assert rest[k] == path[k + 1] && rest[k + 1] == path[k + 2];
      }
      ReachingIsUnavailable(tables, features, rest);
      assert features[path[1]].id in features[path[0]].dependencies;
    }
  }

  /** The run behind a hydrated document. */
  lemma HydrationRun(environment: Environment, document: ModelDocument, hydrated: HydratedDocument)
    returns (session: Session, stage: Stage)
    requires ValidCursor(document) && Hydrate(environment, document) == Success(hydrated)
    ensures OpenSession(environment, document.tables, document.features[..document.position]) == Success(session)
    ensures session.tables == document.tables
    ensures ParametersReady(session, document.features[..document.position])
    ensures ReplayAll(session, document.features[..document.position]) == Success(stage)
    ensures hydrated == HydratedDocument(document, stage.snapshots, stage.features, stage.branchHeads, stage.skipped,
                                         Ids(document.features[document.position..]))
  {
    session := OpenSession(environment, document.tables, document.features[..document.position]).value;
    stage := ReplayAll(session, document.features[..document.position]).value;
  }

  /** Replayed and skipped ids split the active ids by the unavailable set. */
  lemma HydrationSplits(environment: Environment, document: ModelDocument, hydrated: HydratedDocument)
    requires ValidDocument(document) && Hydrate(environment, document) == Success(hydrated)
    ensures var active := document.features[..document.position];
            var unavailable := Unavailable(document.tables, active);
            && FeatureIds(hydrated.features) == Select(Ids(active), unavailable, false)
            && SkippedIds(hydrated.skipped) == Select(Ids(active), unavailable, true)
            && hydrated.beyondHistoryCursor == Ids(document.features[document.position..])
  {
    var session, stage := HydrationRun(environment, document, hydrated);
    ReplaySplits(session, document.features[..document.position], stage);
    ReplayUnavailable(session, document.features[..document.position], stage);
  }

  /** A skipped feature is exactly one that reaches, through dependencies, a
      feature omitted by itself or by its component; every other active
      feature was replayed, after everything it depends on. */
  lemma SuppressionClosure(environment: Environment, document: ModelDocument, hydrated: HydratedDocument, i: nat)
    requires ValidDocument(document) && Hydrate(environment, document) == Success(hydrated)
    requires i < document.position
    ensures document.features[i].id in SkippedIds(hydrated.skipped) <==>
            ReachesOmitted(document.tables, document.features[..document.position], i)
    ensures document.features[i].id in FeatureIds(hydrated.features) <==>
            document.features[i].id !in SkippedIds(hydrated.skipped)
    ensures document.features[i].id in FeatureIds(hydrated.features) ==>
              forall d :: d in document.features[i].dependencies ==> d in FeatureIds(hydrated.features)
  {
    var active := document.features[..document.position];
    var unavailable := Unavailable(document.tables, active);
    DependenciesPrecedeInPrefix(document.features, document.position);
    HydrationSplits(environment, document, hydrated);
    SelectMembers(Ids(active), unavailable, true);
    SelectMembers(Ids(active), unavailable, false);
    assert Ids(active)[i] == active[i].id;
    if active[i].id in unavailable {
      UnavailableReaches(document.tables, active, i);
    } else {
      if ReachesOmitted(document.tables, active, i) {
        var path :| DependencyPath(active, path) && path[0] == i && Omitted(document.tables, active[path[|path| - 1]]);
        ReachingIsUnavailable(document.tables, active, path);
      }
      UnavailableMeans(document.tables, active, i);
      forall d | d in active[i].dependencies ensures d in FeatureIds(hydrated.features) {
        assert Precedes(active, d, i);
        var j :| 0 <= j < i && active[j].id == d;
        assert Ids(active)[j] == d;
      }
    }
  }

  // -- the history cursor ----------------------------------------------------

  /** A stage another can grow into by replaying more. */
  ghost predicate GrowsInto(early: Stage, late: Stage) {
    && early.features <= late.features
    && early.skipped <= late.skipped
    && early.snapshots.Keys <= late.snapshots.Keys
    && (forall id :: id in early.snapshots ==> late.snapshots[id] == early.snapshots[id])
    && early.branchHeads.Keys <= late.branchHeads.Keys
  }

  lemma StepGrows(session: Session, stage: Stage, feature: FeatureNode, after: Stage)
    requires feature.action.ReadsParameters() ==> session.parameters.Some?
    requires Step(session, stage, feature) == Success(after)
    ensures GrowsInto(stage, after)
  {
  }

  lemma GrowthAdds(early: Stage, middle: Stage, late: Stage)
    requires GrowsInto(early, middle) && GrowsInto(middle, late)
    ensures GrowsInto(early, late)
  {
  }

  lemma {:induction false} ReplayGrows(session: Session, features: seq<FeatureNode>, k: nat, late: Stage)
    requires k <= |features| && ParametersReady(session, features)
    requires ReplayAll(session, features) == Success(late)
    ensures ReplayAll(session, features[..k]).Success? && GrowsInto(ReplayAll(session, features[..k]).value, late)
    decreases |features|
  {
    if k == |features| {
      assert features[..k] == features;
    } else {
      var init := features[..|features| - 1];
      assert init[..k] == features[..k];
      var middle := ReplayAll(session, init).value;
      ReplayGrows(session, init, k, middle);
      StepGrows(session, middle, features[|features| - 1], late);
      GrowthAdds(ReplayAll(session, features[..k]).value, middle, late);
    }
  }

  /** A run that reads no parameter does not depend on them. */
  lemma {:induction false} ParametersUnread(session: Session, other: Session, features: seq<FeatureNode>)
    requires ParametersReady(session, features) && !AnyReadsParameters(features)
    requires other == session.(parameters := other.parameters)
    ensures ParametersReady(other, features)
    ensures ReplayAll(session, features) == ReplayAll(other, features)
    decreases |features|
  {
    if features != [] {
      var init, last := features[..|features| - 1], features[|features| - 1];
      assert !last.action.ReadsParameters();
      ParametersUnread(session, other, init);
      var before := ReplayAll(session, init);
      if before.Success? {
        StepWithoutParameters(session, other, before.value, last);
      }
    }
  }

  lemma ResolvedWithoutParameters(session: Session, other: Session, feature: FeatureNode, input: Snapshot)
    requires !feature.action.ReadsParameters() && other == session.(parameters := other.parameters)
    ensures ResolveAction(session, feature, input) == ResolveAction(other, feature, input)
  {
  }

  lemma ActionWithoutParameters(session: Session, other: Session, id: FeatureId, action: ResolvedAction,
                                input: Snapshot, stage: Stage)
    requires other == session.(parameters := other.parameters)
    ensures RunAction(session, id, action, input, stage) == RunAction(other, id, action, input, stage)
  {
    if action.RunMany? {
      ChainWithoutParameters(session, other, id, input, action.chain);
    }
  }

  lemma FeatureWithoutParameters(session: Session, other: Session, stage: Stage, feature: FeatureNode)
    requires !feature.action.ReadsParameters() && other == session.(parameters := other.parameters)
    ensures RunFeature(session, stage, feature) == RunFeature(other, stage, feature)
  {
    var inputId := ReplayInput(session.tables, feature, stage);
    if inputId.Success? && inputId.value in stage.snapshots {
      var input := stage.snapshots[inputId.value];
      ResolvedWithoutParameters(session, other, feature, input);
      var action := ResolveAction(session, feature, input);
      if action.Success? {
        ActionWithoutParameters(session, other, feature.id, action.value, input, stage);
      }
    }
  }

  lemma StepWithoutParameters(session: Session, other: Session, stage: Stage, feature: FeatureNode)
    requires !feature.action.ReadsParameters()
    requires other == session.(parameters := other.parameters)
    ensures Step(session, stage, feature) == Step(other, stage, feature)
  {
    FeatureWithoutParameters(session, other, stage, feature);
  }

  lemma {:induction false} ChainWithoutParameters(session: Session, other: Session, id: FeatureId, input: Snapshot,
                                                  chain: seq<Command>)
    requires other == session.(parameters := other.parameters)
    ensures RunChain(session, id, input, chain) == RunChain(other, id, input, chain)
    decreases |chain|
  {
    if chain != [] {
      var first := ExecuteFeature(session, id, input, chain[0]);
      assert first == ExecuteFeature(other, id, input, chain[0]);
      if first.Success? && |chain| > 1 {
        ChainWithoutParameters(session, other, id, first.value.snapshot, chain[1..]);
      }
    }
  }

  /** A document that hydrates at one history position hydrates at every
      earlier one, to a prefix of the same result. */
  lemma CursorPrefix(environment: Environment, document: ModelDocument, late: HydratedDocument, k: nat)
    requires ValidCursor(document) && Hydrate(environment, document) == Success(late)
    requires k <= document.position
    ensures Hydrate(environment, document.(position := k)).Success?
    ensures var early := Hydrate(environment, document.(position := k)).value;
            && early.features <= late.features
            && early.skipped <= late.skipped
            && early.snapshots.Keys <= late.snapshots.Keys
            && (forall id :: id in early.snapshots ==> late.snapshots[id] == early.snapshots[id])
            && early.branchHeads.Keys <= late.branchHeads.Keys
            && early.beyondHistoryCursor == Ids(document.features[k..document.position]) + late.beyondHistoryCursor
  {
    var session, stage := HydrationRun(environment, document, late);
    CursorRun(environment, document, session, stage, k);
    BeyondEarlier(document.features, k, document.position);
    var earlier := OpenSession(environment, document.tables, document.features[..k]).value;
    HydratesTo(environment, document, k, earlier, ReplayAll(earlier, document.features[..k]).value);
  }

  lemma BeyondEarlier(features: seq<FeatureNode>, k: nat, position: nat)
    requires k <= position <= |features|
    ensures Ids(features[k..]) == Ids(features[k..position]) + Ids(features[position..])
  {
    assert features[k..] == features[k..position] + features[position..];
  }

  lemma HydratesTo(environment: Environment, document: ModelDocument, k: nat, session: Session, stage: Stage)
    requires k <= |document.features|
    requires OpenSession(environment, document.tables, document.features[..k]) == Success(session)
    requires ReplayAll(session, document.features[..k]) == Success(stage)
    ensures Hydrate(environment, document.(position := k)) ==
            Success(HydratedDocument(document.(position := k), stage.snapshots, stage.features, stage.branchHeads,
                                     stage.skipped, Ids(document.features[k..])))
  {
  }

  lemma CursorRun(environment: Environment, document: ModelDocument, session: Session, late: Stage, k: nat)
    requires ValidCursor(document) && k <= document.position
    requires OpenSession(environment, document.tables, document.features[..document.position]) == Success(session)
    requires ReplayAll(session, document.features[..document.position]) == Success(late)
    ensures OpenSession(environment, document.tables, document.features[..k]).Success?
    ensures var earlier := OpenSession(environment, document.tables, document.features[..k]).value;
            && ReplayAll(earlier, document.features[..k]).Success?
            && GrowsInto(ReplayAll(earlier, document.features[..k]).value, late)
  {
    var active, fewer := document.features[..document.position], document.features[..k];
    assert active[..k] == fewer;
    ReplayGrows(session, active, k, late);
    if AnyReadsParameters(fewer) {
      var i :| 0 <= i < |fewer| && fewer[i].action.ReadsParameters();
      assert active[i].action.ReadsParameters();
    } else {
      ParametersUnread(session, OpenSession(environment, document.tables, fewer).value, fewer);
    }
  }

  // -- why features are skipped ----------------------------------------------

  /** Dependency `k` is the first of the feature's that was skipped before
      it. */
  ghost predicate FirstSkipped(dependencies: seq<FeatureId>, skipped: seq<HydratedSkip>, k: nat) {
    && k < |dependencies| && dependencies[k] in SkippedIds(skipped)
    && (forall j :: 0 <= j < k ==> dependencies[j] !in SkippedIds(skipped))
  }

  /** The reason given for a skip is the first that holds: its own switch, the
      first dependency skipped before it, or its component. */
  ghost predicate Because(tables: Tables, node: FeatureNode, before: seq<HydratedSkip>, reason: SkipReason) {
    match reason
    case ExplicitSuppression => node.suppressed
    case SuppressedDependency(d) =>
      !node.suppressed && exists k: nat :: FirstSkipped(node.dependencies, before, k) && node.dependencies[k] == d
    case SuppressedComponent(c) =>
      && !node.suppressed
      && (forall d :: d in node.dependencies ==> d !in SkippedIds(before))
      && exists i: nat :: LastRecord(tables.components, node.id, i) && tables.components[i].suppressed &&
                          tables.components[i].id == c
  }

  lemma {:induction false} FirstUnavailableIsFirst(dependencies: seq<FeatureId>, skipped: seq<HydratedSkip>)
    ensures var d := FirstUnavailable(dependencies, SkippedSet(skipped));
            && (d.None? ==> forall x :: x in dependencies ==> x !in SkippedIds(skipped))
            && (d.Some? ==> exists k: nat :: FirstSkipped(dependencies, skipped, k) && dependencies[k] == d.value)
  {
    if dependencies != [] {
      var rest := dependencies[1..];
      FirstUnavailableIsFirst(rest, skipped);
      if dependencies[0] in SkippedSet(skipped) {
        assert FirstSkipped(dependencies, skipped, 0);
      } else if FirstUnavailable(rest, SkippedSet(skipped)).Some? {
        var k: nat :| FirstSkipped(rest, skipped, k) &&
                      rest[k] == FirstUnavailable(rest, SkippedSet(skipped)).value;
        assert FirstSkipped(dependencies, skipped, k + 1);
      }
    }
  }

  lemma SkippedFor(tables: Tables, node: FeatureNode, skipped: seq<HydratedSkip>, reason: SkipReason)
    requires SkipReasonFor(tables, node, SkippedSet(skipped)) == Some(reason)
    ensures Because(tables, node, skipped, reason)
  {
    FirstUnavailableIsFirst(node.dependencies, skipped);
    ComponentOfIsLast(tables.components, node.id);
  }

  /** Every skip so far was for its reason, and the unavailable features are
      those skipped. */
  ghost predicate SkipsExplained(tables: Tables, nodes: seq<FeatureNode>, stage: Stage) {
    && stage.unavailable == SkippedSet(stage.skipped)
    && forall j :: 0 <= j < |stage.skipped| ==> SkipExplained(tables, nodes, stage.skipped, j)
  }

  ghost predicate SkipExplained(tables: Tables, nodes: seq<FeatureNode>, skipped: seq<HydratedSkip>, j: nat)
    requires j < |skipped|
  {
    exists n :: 0 <= n < |nodes| && nodes[n].id == skipped[j].feature &&
                Because(tables, nodes[n], skipped[..j], skipped[j].reason)
  }

  lemma SkipStillExplained(tables: Tables, init: seq<FeatureNode>, last: FeatureNode, skipped: seq<HydratedSkip>,
                           more: seq<HydratedSkip>, j: nat)
    requires j < |skipped| && skipped <= more && SkipExplained(tables, init, skipped, j)
    ensures SkipExplained(tables, init + [last], more, j)
  {
    var n :| 0 <= n < |init| && init[n].id == skipped[j].feature &&
             Because(tables, init[n], skipped[..j], skipped[j].reason);
    assert more[..j] == skipped[..j] && (init + [last])[n] == init[n];
  }

  lemma SkippedAdds(skipped: seq<HydratedSkip>, last: HydratedSkip)
    ensures SkippedSet(skipped + [last]) == SkippedSet(skipped) + {last.feature}
  {
    assert SkippedIds(skipped + [last]) == SkippedIds(skipped) + [last.feature];
  }

  lemma StepSkips(session: Session, init: seq<FeatureNode>, last: FeatureNode, before: Stage, after: Stage)
    requires last.action.ReadsParameters() ==> session.parameters.Some?
    requires before.unavailable == SkippedSet(before.skipped) && Step(session, before, last) == Success(after)
    ensures after.unavailable == SkippedSet(after.skipped) && before.skipped <= after.skipped
    ensures |after.skipped| <= |before.skipped| + 1
    ensures |after.skipped| > |before.skipped| ==>
              SkipExplained(session.tables, init + [last], after.skipped, |before.skipped|)
  {
    var reason := SkipReasonFor(session.tables, last, before.unavailable);
    if reason.Some? {
      SkippedFor(session.tables, last, before.skipped, reason.value);
      SkippedAdds(before.skipped, HydratedSkip(last.id, reason.value));
      assert after.skipped[..|before.skipped|] == before.skipped;
      assert (init + [last])[|init|] == last;
    }
  }

  lemma AllStillExplained(tables: Tables, init: seq<FeatureNode>, last: FeatureNode, skipped: seq<HydratedSkip>,
                          more: seq<HydratedSkip>)
    requires skipped <= more && |more| <= |skipped| + 1
    requires forall j :: 0 <= j < |skipped| ==> SkipExplained(tables, init, skipped, j)
    requires |more| > |skipped| ==> SkipExplained(tables, init + [last], more, |skipped|)
    ensures forall j :: 0 <= j < |more| ==> SkipExplained(tables, init + [last], more, j)
  {
    forall j | 0 <= j < |more| ensures SkipExplained(tables, init + [last], more, j) {
      if j < |skipped| {
        SkipStillExplained(tables, init, last, skipped, more, j);
      }
    }
  }

  lemma StepAllSkips(session: Session, init: seq<FeatureNode>, last: FeatureNode, before: Stage, after: Stage)
    requires last.action.ReadsParameters() ==> session.parameters.Some?
    requires SkipsExplained(session.tables, init, before) && Step(session, before, last) == Success(after)
    ensures SkipsExplained(session.tables, init + [last], after)
  {
    StepSkips(session, init, last, before, after);
    AllStillExplained(session.tables, init, last, before.skipped, after.skipped);
  }

  lemma {:induction false} ReplaySkips(session: Session, nodes: seq<FeatureNode>, stage: Stage)
    requires ParametersReady(session, nodes) && ReplayAll(session, nodes) == Success(stage)
    ensures SkipsExplained(session.tables, nodes, stage)
  {
    if nodes != [] {
      var init, last := nodes[..|nodes| - 1], nodes[|nodes| - 1];
      ReplaySkips(session, init, ReplayAll(session, init).value);
      StepAllSkips(session, init, last, ReplayAll(session, init).value, stage);
      assert nodes == init + [last];
    }
  }

  /** Every skip is recorded with the reason it has. */
  lemma SkipReasons(environment: Environment, document: ModelDocument, hydrated: HydratedDocument, j: nat, n: nat)
    requires ValidDocument(document) && Hydrate(environment, document) == Success(hydrated)
    requires j < |hydrated.skipped| && n < document.position
    requires document.features[n].id == hydrated.skipped[j].feature
    ensures Because(document.tables, document.features[n], hydrated.skipped[..j], hydrated.skipped[j].reason)
  {
    var session, stage := HydrationRun(environment, document, hydrated);
    var active := document.features[..document.position];
    ReplaySkips(session, active, stage);
    assert SkipExplained(document.tables, active, hydrated.skipped, j);
    var m :| 0 <= m < |active| && active[m].id == hydrated.skipped[j].feature &&
             Because(document.tables, active[m], hydrated.skipped[..j], hydrated.skipped[j].reason);
    assert m == n;
  }

  /** Replayed, skipped and beyond-cursor features partition the timeline:
      the active ids fall into the first two lists by the skipped set, in
      timeline order, and the rest are exactly the third. */
  lemma TimelinePartition(environment: Environment, document: ModelDocument, hydrated: HydratedDocument)
    requires ValidDocument(document) && Hydrate(environment, document) == Success(hydrated)
    ensures var active := Ids(document.features)[..document.position];
            var skipped := SkippedSet(hydrated.skipped);
            && FeatureIds(hydrated.features) == Select(active, skipped, false)
            && SkippedIds(hydrated.skipped) == Select(active, skipped, true)
            && active + hydrated.beyondHistoryCursor == Ids(document.features)
  {
    var active := document.features[..document.position];
    HydrationSplits(environment, document, hydrated);
    var unavailable := Unavailable(document.tables, active);
    UnavailableAreListed(document.tables, active);
    SelectMembers(Ids(active), unavailable, true);
    assert SkippedSet(hydrated.skipped) == unavailable;
    assert Ids(active) == Ids(document.features)[..document.position];
  }
}
