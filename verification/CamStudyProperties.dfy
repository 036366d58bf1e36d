/** What holds of the machining card over every run of its steps. */
module CamStudyProperties {
  import opened Results
  import opened CamStudy

  datatype Event =
    | Staged(built: Option<Study>)
    | Replanned(built: Option<Study>)
    | Reordered(index: nat, earlier: bool)
    | Confirmed
    | Dropped
    | Scrubbed(seconds: real)
    | Rendered

  /** The program is what the plan posts and simulates to. */
  predicate Consistent(shop: Shop, study: Study) {
    shop.finish(study.subject, study.plan) == Some(study.program)
  }

  /** A study that was built was finished from its own plan. */
  predicate Possible(shop: Shop, e: Event) {
    match e
    case Staged(built) => built.Some? ==> Consistent(shop, built.value)
    case Replanned(built) => built.Some? ==> Consistent(shop, built.value)
    case _ => true
  }

  function Next(shop: Shop, c: Card, e: Event): Card {
    match e
    case Staged(built) => Stage(c, built)
    case Replanned(built) => Replan(c, built)
    case Reordered(index, earlier) => MoveOperation(shop, c, index, earlier)
    case Confirmed => Commit(c)
    case Dropped => Cancel(c)
    case Scrubbed(seconds) => SetTime(c, seconds)
    case Rendered => Overlay(shop, c)
  }

  function Run(shop: Shop, events: seq<Event>): Card {
    if events == [] then EMPTY else Next(shop, Run(shop, events[..|events| - 1]), events[|events| - 1])
  }

  predicate AllPossible(shop: Shop, events: seq<Event>) {
    forall i :: 0 <= i < |events| ==> Possible(shop, events[i])
  }

  // -- renderings ------------------------------------------------------------

  /** A rendering of this card draws the mesh afresh. */
  predicate Rebuilds(c: Card) {
    Front(c).Some? && !Hit(c)
  }

  /** No motion has begun: there are none, or the first takes time and the
      clock is not past its start. */
  predicate NothingCut(ends: seq<real>, seconds: real) {
    ends == [] || (ends[0] > 0.0 && seconds <= 0.0)
  }

  /** Whether a rendering of this card would draw the stock untouched. */
  predicate AtRest(c: Card) {
    Front(c).Some? && NothingCut(Front(c).value.program.simulation.ends, c.time)
  }

  /** Stock is drawn untouched exactly before the first motion has begun. */
  lemma UntouchedMeans(simulation: Simulation, seconds: real)
    ensures Drawn(simulation, seconds).1 <==> NothingCut(simulation.ends, seconds)
  {
    if simulation.ends != [] && simulation.ends[0] > 0.0 && seconds > 0.0 {
      var q := seconds / simulation.ends[0];
      assert q * simulation.ends[0] == seconds;
      assert q > 0.0;
    }
    if simulation.ends != [] && simulation.ends[0] > 0.0 && seconds <= 0.0 {
      var q := seconds / simulation.ends[0];
      assert q * simulation.ends[0] == seconds;
      assert q <= 0.0;
    }
  }

  /** The last rendering to draw the mesh afresh drew it untouched. */
  predicate LastDrawnUntouched(shop: Shop, events: seq<Event>) {
    if events == [] then false
    else
      var init := events[..|events| - 1];
      if events[|events| - 1].Rendered? && Rebuilds(Run(shop, init)) then AtRest(Run(shop, init))
      else LastDrawnUntouched(shop, init)
  }

  /** Event `n` is the last rendering to draw the mesh afresh. */
  ghost predicate IsLastRebuild(shop: Shop, events: seq<Event>, n: nat) {
    && n < |events| && events[n].Rendered? && Rebuilds(Run(shop, events[..n]))
    && (forall k :: n < k < |events| && events[k].Rendered? ==> !Rebuilds(Run(shop, events[..k])))
  }

  lemma {:induction false} MeshHasARebuild(shop: Shop, events: seq<Event>) returns (n: nat)
    requires Run(shop, events).stockMesh.Some?
    ensures IsLastRebuild(shop, events, n)
    ensures LastDrawnUntouched(shop, events) <==> AtRest(Run(shop, events[..n]))
  {
    var last := |events| - 1;
    var init := events[..last];
    if events[last].Rendered? && Rebuilds(Run(shop, init)) {
      n := last;
    } else {
      MeshComesFromRendering(shop, Run(shop, init), events[last]);
      n := MeshHasARebuild(shop, init);
      StillLastRebuild(shop, init, events[last], n);
      assert events == init + [events[last]] && init[..n] == events[..n];
    }
  }

  lemma StillLastRebuild(shop: Shop, init: seq<Event>, last: Event, n: nat)
    requires IsLastRebuild(shop, init, n) && !(last.Rendered? && Rebuilds(Run(shop, init)))
    ensures IsLastRebuild(shop, init + [last], n)
  {
    var events := init + [last];
    assert events[..n] == init[..n];
    forall k | n < k < |events| && events[k].Rendered? ensures !Rebuilds(Run(shop, events[..k])) {
      assert events[..k] == if k < |init| then init[..k] else init;
    }
  }

  lemma MeshComesFromRendering(shop: Shop, c: Card, e: Event)
    requires Next(shop, c, e).stockMesh.Some? && !(e.Rendered? && Rebuilds(c))
    ensures c.stockMesh.Some?
  {
  }

  // -- the invariant ---------------------------------------------------------

  /** A mesh under the key of the study in front was drawn for that study. */
  predicate MeshIsOfFront(shop: Shop, c: Card, untouched: bool) {
    c.stockMesh.Some? ==>
      var kept := c.stockMesh.value;
      && (c.staged.Some? ==> kept.wasStaged)
      && (untouched ==> kept.index == 0)
      && (Front(c).Some? && kept.wasStaged == c.staged.Some? ==>
            kept.mesh == MeshFor(shop, Front(c).value, kept.index, untouched))
  }

  /** A study is what its plan posts to, or its plan cannot be posted. */
  predicate PostedOrRefused(shop: Shop, study: Option<Study>) {
    study.Some? ==> Consistent(shop, study.value) || shop.finish(study.value.subject, study.value.plan) == None
  }

  predicate Inv(shop: Shop, c: Card, untouched: bool) {
    && MeshIsOfFront(shop, c, untouched)
    && PostedOrRefused(shop, c.staged)
    && PostedOrRefused(shop, c.committed)
  }

  lemma ReorderKeeps(shop: Shop, c: Card, untouched: bool, index: nat, earlier: bool)
    requires Inv(shop, c, untouched)
    ensures Inv(shop, MoveOperation(shop, c, index, earlier), untouched)
  {
    if Front(c).Some? {
      var plan := Moved(Front(c).value.plan, index, earlier);
      if plan.Some? {
        var swapped := WithFront(c, Front(c).value.(plan := plan.value));
        assert Front(swapped).value.subject == Front(c).value.subject;
        assert Front(swapped).value.program == Front(c).value.program;
        assert MeshIsOfFront(shop, swapped, untouched);
      }
    }
  }

  lemma StepKeeps(shop: Shop, c: Card, untouched: bool, e: Event)
    requires Inv(shop, c, untouched) && Possible(shop, e)
    ensures Inv(shop, Next(shop, c, e), if e.Rendered? && Rebuilds(c) then AtRest(c) else untouched)
  {
    if e.Reordered? {
      ReorderKeeps(shop, c, untouched, e.index, e.earlier);
    } else if e.Rendered? && Front(c).Some? {
      UntouchedMeans(Front(c).value.program.simulation, c.time);
    }
  }

  lemma {:induction false} RunKeeps(shop: Shop, events: seq<Event>)
    requires AllPossible(shop, events)
    ensures Inv(shop, Run(shop, events), LastDrawnUntouched(shop, events))
  {
    if events != [] {
      var init := events[..|events| - 1];
      RunKeeps(shop, init);
      StepKeeps(shop, Run(shop, init), LastDrawnUntouched(shop, init), events[|events| - 1]);
    }
  }

  // -- what a rendering draws ------------------------------------------------

  /** The motion the clock stands in: the first to end at or after it, or the
      last if all have ended. */
  ghost predicate StandsIn(ends: seq<real>, seconds: real, k: nat) {
    && k < |ends|
    && (forall i :: 0 <= i < k ==> ends[i] < seconds)
    && (ends[k] >= seconds || k == |ends| - 1)
  }

  lemma {:induction false} EndedBeforeIs(ends: seq<real>, seconds: real)
    ensures forall i :: 0 <= i < EndedBefore(ends, seconds) ==> ends[i] < seconds
    ensures EndedBefore(ends, seconds) < |ends| ==> ends[EndedBefore(ends, seconds)] >= seconds
  {
    if ends != [] && ends[0] < seconds {
      EndedBeforeIs(ends[1..], seconds);
      forall i | 0 <= i < EndedBefore(ends, seconds) ensures ends[i] < seconds {
        assert i > 0 ==> ends[1..][i - 1] == ends[i];
      }
    }
  }

  lemma DrawnStandsIn(simulation: Simulation, seconds: real)
    requires simulation.ends != []
    ensures StandsIn(simulation.ends, seconds, Drawn(simulation, seconds).0)
  {
    EndedBeforeIs(simulation.ends, seconds);
  }

  /** There is only one such motion. */
  lemma StandsInOne(ends: seq<real>, seconds: real, j: nat, k: nat)
    requires StandsIn(ends, seconds, j) && StandsIn(ends, seconds, k)
    ensures j == k
  {
  }

  /** This is the stock as the study has cut it by the clock. */
  ghost predicate ShowsStock(shop: Shop, study: Study, seconds: real, mesh: nat) {
    var simulation := study.program.simulation;
    if NothingCut(simulation.ends, seconds) then mesh == shop.initialMesh(study.subject, simulation)
    else exists k: nat :: StandsIn(simulation.ends, seconds, k) &&
                          mesh == shop.meshAfter(study.subject, simulation, k)
  }

  lemma MeshForShows(shop: Shop, study: Study, seconds: real, at: (nat, bool))
    requires at == Drawn(study.program.simulation, seconds)
    ensures ShowsStock(shop, study, seconds, MeshFor(shop, study, at.0, at.1))
  {
    UntouchedMeans(study.program.simulation, seconds);
    if study.program.simulation.ends != [] {
      DrawnStandsIn(study.program.simulation, seconds);
    }
  }

  /** A rendering with no mesh to reuse draws the stock as it stands: untouched
      before anything is cut, and otherwise after the motion the clock stands
      in. A mesh is reused only for the same motion and the same plan's
      staging. */
  lemma RenderingShowsStock(shop: Shop, c: Card)
    requires Front(c).Some?
    ensures var after, study := Overlay(shop, c), Front(c).value;
            var ends := study.program.simulation.ends;
            && after.stockMesh.Some? && after == c.(stockMesh := after.stockMesh)
            && (after != c || c.stockMesh.None? ==>
                  && ShowsStock(shop, study, c.time, after.stockMesh.value.mesh)
                  && after.stockMesh.value.wasStaged == c.staged.Some?)
            && after.stockMesh.value.wasStaged == c.staged.Some?
            && (if ends == [] then after.stockMesh.value.index == 0
                else StandsIn(ends, c.time, after.stockMesh.value.index))
  {
    var study := Front(c).value;
    MeshForShows(shop, study, c.time, Drawn(study.program.simulation, c.time));
    if study.program.simulation.ends != [] {
      DrawnStandsIn(study.program.simulation, c.time);
    }
  }

  // -- the mesh kept ---------------------------------------------------------

  /** A mesh taken for current is the one that would be drawn afresh: always
      past the first motion; within it, exactly when the clock stood at rest
      at the last rendering that drew it if and only if it stands so now, or
      the first motion changes nothing. */
  lemma MeshIsFresh(shop: Shop, events: seq<Event>) returns (n: nat)
    requires AllPossible(shop, events)
    requires Front(Run(shop, events)).Some? && Hit(Run(shop, events))
    ensures IsLastRebuild(shop, events, n)
    ensures var c := Run(shop, events);
            var study, mesh := Front(c).value, c.stockMesh.value.mesh;
            var simulation := study.program.simulation;
            && (ShowsStock(shop, study, c.time, mesh) <==>
                  (AtRest(c) <==> AtRest(Run(shop, events[..n])))
                  || shop.initialMesh(study.subject, simulation) == shop.meshAfter(study.subject, simulation, 0))
            && (forall k: nat :: k > 0 && StandsIn(simulation.ends, c.time, k) ==>
                  mesh == shop.meshAfter(study.subject, simulation, k))
  {
    RunKeeps(shop, events);
    n := MeshHasARebuild(shop, events);
    var c := Run(shop, events);
    KeptShows(shop, c, LastDrawnUntouched(shop, events));
  }

  lemma ShowsOne(shop: Shop, study: Study, seconds: real, mesh: nat, other: nat)
    requires ShowsStock(shop, study, seconds, mesh)
    ensures ShowsStock(shop, study, seconds, other) <==> other == mesh
  {
    var ends := study.program.simulation.ends;
    if !NothingCut(ends, seconds) {
      var k: nat :| StandsIn(ends, seconds, k) && mesh == shop.meshAfter(study.subject, study.program.simulation, k);
      forall j: nat | StandsIn(ends, seconds, j) ensures j == k {
        StandsInOne(ends, seconds, j, k);
      }
    }
  }

  /** What a kept mesh taken for current shows, by whether it was drawn
      untouched. */
  lemma KeptShows(shop: Shop, c: Card, untouched: bool)
    requires Front(c).Some? && Hit(c) && MeshIsOfFront(shop, c, untouched)
    ensures var study, mesh := Front(c).value, c.stockMesh.value.mesh;
            var simulation := study.program.simulation;
            && (ShowsStock(shop, study, c.time, mesh) <==>
                  AtRest(c) == untouched
                  || shop.initialMesh(study.subject, simulation) == shop.meshAfter(study.subject, simulation, 0))
            && (forall k: nat :: k > 0 && StandsIn(simulation.ends, c.time, k) ==>
                  mesh == shop.meshAfter(study.subject, simulation, k))
  {
    var study := Front(c).value;
    var simulation := study.program.simulation;
    var at := Drawn(simulation, c.time);
    UntouchedMeans(simulation, c.time);
    MeshForShows(shop, study, c.time, at);
    ShowsOne(shop, study, c.time, MeshFor(shop, study, at.0, at.1), c.stockMesh.value.mesh);
    forall k: nat | StandsIn(simulation.ends, c.time, k) ensures k == at.0 {
      DrawnStandsIn(simulation, c.time);
      StandsInOne(simulation.ends, c.time, k, at.0);
    }
  }

  lemma DrawnAt(simulation: Simulation, seconds: real)
    requires |simulation.ends| > 0 && simulation.ends[0] > 0.0 && 0.0 <= seconds <= simulation.ends[0]
    ensures Drawn(simulation, seconds) == (0, seconds == 0.0)
  {
    UntouchedMeans(simulation, seconds);
  }

  lemma Then(shop: Shop, events: seq<Event>, e: Event)
    ensures Run(shop, events + [e]) == Next(shop, Run(shop, events), e)
  {
    var longer := events + [e];
    assert longer[..|longer| - 1] == events;
  }

  /** Drawn at rest, the mesh is kept while the clock runs through the first
      motion, though that motion has begun to cut. */
  lemma FirstMotionDrawsUntouchedStock(shop: Shop, study: Study) returns (events: seq<Event>)
    requires Consistent(shop, study)
    requires var s := study.program.simulation; |s.ends| > 0 && 0.0 < s.ends[0] <= s.total
    requires var s := study.program.simulation;
             shop.initialMesh(study.subject, s) != shop.meshAfter(study.subject, s, 0)
    ensures AllPossible(shop, events)
    ensures var c := Run(shop, events);
            && Front(c) == Some(study) && c.time == study.program.simulation.ends[0]
            && c.stockMesh.Some?
            && c.stockMesh.value.mesh == shop.initialMesh(study.subject, study.program.simulation)
            && !ShowsStock(shop, study, c.time, c.stockMesh.value.mesh)
  {
    var s := study.program.simulation;
    DrawnAt(s, 0.0);
    DrawnAt(s, s.ends[0]);
    events := [] + [Staged(Some(study))] + [Rendered] + [Scrubbed(s.ends[0])] + [Rendered];
    Then(shop, [], Staged(Some(study)));
    Then(shop, [] + [Staged(Some(study))], Rendered);
    Then(shop, [] + [Staged(Some(study))] + [Rendered], Scrubbed(s.ends[0]));
    Then(shop, [] + [Staged(Some(study))] + [Rendered] + [Scrubbed(s.ends[0])], Rendered);
    MeshForShows(shop, study, s.ends[0], (0, false));
    ShowsOne(shop, study, s.ends[0], MeshFor(shop, study, 0, false), shop.initialMesh(study.subject, s));
  }

  // -- the card over a run ---------------------------------------------------

  /** At most one study is on the card, and the clock stands in its program. */
  predicate InProgram(c: Card) {
    && !(c.staged.Some? && c.committed.Some?)
    && (Front(c).Some? && Front(c).value.program.simulation.total >= 0.0 ==>
          0.0 <= c.time <= Front(c).value.program.simulation.total)
  }

  /** Over every run the card holds one study at most, staged or kept, with
      the clock between the start and the end of its program. */
  lemma {:induction false} ClockStaysInProgram(shop: Shop, events: seq<Event>)
    ensures InProgram(Run(shop, events))
  {
    if events != [] {
      ClockStaysInProgram(shop, events[..|events| - 1]);
      StaysInProgram(shop, Run(shop, events[..|events| - 1]), events[|events| - 1]);
    }
  }

  lemma StaysInProgram(shop: Shop, c: Card, e: Event)
    requires InProgram(c)
    ensures InProgram(Next(shop, c, e))
  {
  }

  /** The study last built for the card, if it has not been dropped or
      refused: a refused staging and a cancel drop a staged study only. */
  function Holds(events: seq<Event>): bool {
    if events == [] then false
    else
      var before := Holds(events[..|events| - 1]);
      match events[|events| - 1]
      case Staged(built) => built.Some? || (before && Kept(events[..|events| - 1]))
      case Dropped => before && Kept(events[..|events| - 1])
      case _ => before
  }

  /** Whether a study held has been confirmed since it was staged. */
  function Kept(events: seq<Event>): bool {
    if events == [] then false
    else
      var before := Kept(events[..|events| - 1]);
      match events[|events| - 1]
      case Staged(built) => built.None? && before
      case Confirmed => Holds(events[..|events| - 1])
      case _ => before
  }

  /** What the card holds, and where, follows from the events. */
  lemma {:induction false} CardFollowsEvents(shop: Shop, events: seq<Event>)
    ensures Front(Run(shop, events)).Some? <==> Holds(events)
    ensures Run(shop, events).committed.Some? <==> Kept(events)
  {
    if events != [] {
      CardFollowsEvents(shop, events[..|events| - 1]);
      ClockStaysInProgram(shop, events[..|events| - 1]);
    }
  }

  /** The card while a study is staged: nothing is kept. */
  predicate OnlyStaged(c: Card) {
    c.staged.Some? && c.committed.None?
  }

  predicate LeavesStaging(e: Event) {
    e.Confirmed? || e.Dropped? || (e.Staged? && e.built.None?)
  }

  lemma {:induction false} StaysStaged(shop: Shop, events: seq<Event>, more: seq<Event>)
    requires OnlyStaged(Run(shop, events)) && forall i :: 0 <= i < |more| ==> !LeavesStaging(more[i])
    ensures OnlyStaged(Run(shop, events + more))
  {
    if more == [] {
      assert events + more == events;
    } else {
      var init, last := more[..|more| - 1], more[|more| - 1];
      StaysStaged(shop, events, init);
      assert events + more == (events + init) + [last];
      Then(shop, events + init, last);
    }
  }

  /** Cancelling leaves nothing of a staged study: whatever was on the card
      before it, and however it was replanned, reordered, scrubbed and rendered
      since, the card is as it was when new. */
  lemma CancelLeavesNothing(shop: Shop, events: seq<Event>, study: Study, more: seq<Event>)
    requires forall i :: 0 <= i < |more| ==> !LeavesStaging(more[i])
    ensures Run(shop, events + [Staged(Some(study))] + more + [Dropped]) == EMPTY
  {
    Then(shop, events, Staged(Some(study)));
    StaysStaged(shop, events + [Staged(Some(study))], more);
    Then(shop, events + [Staged(Some(study))] + more, Dropped);
  }

  // -- reordering ------------------------------------------------------------

  /** A reorder is refused at the ends of the list and past it; otherwise the
      operation changes places with the one before it or after it. */
  lemma MovesOnePlace(plan: Plan, index: nat, earlier: bool)
    ensures var operations, moved := plan.operations, Moved(plan, index, earlier);
            && (moved.None? <==> index >= |operations| || (if earlier then index == 0 else index == |operations| - 1))
            && (moved.Some? ==>
                  var place := if earlier then index - 1 else index + 1;
                  && |moved.value.operations| == |operations|
                  && moved.value.operations[place] == operations[index]
                  && moved.value.operations[index] == operations[place]
                  && (forall i :: 0 <= i < |operations| && i != index && i != place ==>
                        moved.value.operations[i] == operations[i]))
  {
  }

  /** The program to be exported is the plan's own exactly when that plan can
      be posted: only a refused reorder parts the two. */
  lemma ExportMatchesPlan(shop: Shop, events: seq<Event>)
    requires AllPossible(shop, events) && Run(shop, events).committed.Some?
    ensures var kept := Run(shop, events).committed.value;
            Consistent(shop, kept) <==> shop.finish(kept.subject, kept.plan).Some?
  {
    RunKeeps(shop, events);
  }

  /** Such a run: staged, reordered to a plan that cannot be posted, and kept. */
  lemma RefusedReorderIsKept(shop: Shop, study: Study) returns (events: seq<Event>)
    requires Consistent(shop, study) && |study.plan.operations| >= 2
    requires shop.finish(study.subject, Moved(study.plan, 0, false).value) == None
    ensures AllPossible(shop, events) && Run(shop, events).committed.Some?
    ensures var kept := Run(shop, events).committed.value;
            && !Consistent(shop, kept) && kept.program == study.program
            && kept.plan == Moved(study.plan, 0, false).value
  {
    events := [] + [Staged(Some(study))] + [Reordered(0, false)] + [Confirmed];
    Then(shop, [], Staged(Some(study)));
    Then(shop, [] + [Staged(Some(study))], Reordered(0, false));
    Then(shop, [] + [Staged(Some(study))] + [Reordered(0, false)], Confirmed);
  }

  /** A refused reorder moves the operation all the same and leaves the old
      program, clock and mesh; a granted one leaves a program of the moved
      plan. */
  lemma RefusedReorderStays(shop: Shop, c: Card, index: nat, earlier: bool)
    requires Front(c).Some? && Consistent(shop, Front(c).value)
    ensures var after := MoveOperation(shop, c, index, earlier);
            var moved := Moved(Front(c).value.plan, index, earlier);
            && Front(after).Some?
            && Front(after).value.plan == (if moved.Some? then moved.value else Front(c).value.plan)
            && (Consistent(shop, Front(after).value) <==>
                  moved.None? || shop.finish(Front(c).value.subject, moved.value).Some?)
            && (!Consistent(shop, Front(after).value) ==>
                  Front(after).value.program == Front(c).value.program && after.time == c.time &&
                  after.stockMesh == c.stockMesh)
  {
  }

  predicate Calls(operations: seq<Operation>, number: nat) {
    exists i :: 0 <= i < |operations| && operations[i].tool == number
  }

  lemma {:induction false} FoundIsNumbered(tools: seq<Tool>, number: nat)
    ensures ToolNumbered(tools, number).Some? ==> ToolNumbered(tools, number).value.number == number
  {
    if tools != [] {
      FoundIsNumbered(tools[1..], number);
    }
  }

  lemma {:induction false} FoundAfterAppend(tools: seq<Tool>, last: Tool, number: nat)
    ensures ToolNumbered(tools + [last], number) ==
            if ToolNumbered(tools, number).Some? then ToolNumbered(tools, number)
            else if last.number == number then Some(last) else None
  {
    if tools != [] {
      assert (tools + [last])[1..] == tools[1..] + [last];
      FoundAfterAppend(tools[1..], last, number);
    }
  }

  /** The tools kept answer for every number called, as the old ones did. */
  lemma {:induction false} KeptAnswer(operations: seq<Operation>, tools: seq<Tool>, number: nat)
    ensures ToolNumbered(ToolsInUse(operations, tools), number) ==
            if Calls(operations, number) then ToolNumbered(tools, number) else None
  {
    if operations != [] {
      var n := |operations| - 1;
      var last, before := operations[n], operations[..n];
      KeptAnswer(before, tools, number);
      KeptAnswer(before, tools, last.tool);
      FoundIsNumbered(tools, last.tool);
      assert Calls(operations, number) <==> Calls(before, number) || last.tool == number by {
        if Calls(operations, number) {
          var i :| 0 <= i < |operations| && operations[i].tool == number;
          assert i < n ==> before[i].tool == number;
        }
        if Calls(before, number) {
          var i :| 0 <= i < |before| && before[i].tool == number;
          assert operations[i].tool == number;
        }
        assert operations[n].tool == last.tool;
      }
      var found := ToolNumbered(tools, last.tool);
      if found.Some? {
        FoundAfterAppend(ToolsInUse(before, tools), found.value, number);
      }
    }
  }

  lemma {:induction false} SameAnswersSameTools(operations: seq<Operation>, left: seq<Tool>, right: seq<Tool>)
    requires forall number :: Calls(operations, number) ==> ToolNumbered(left, number) == ToolNumbered(right, number)
    ensures ToolsInUse(operations, left) == ToolsInUse(operations, right)
  {
    if operations != [] {
      var n := |operations| - 1;
      forall number | Calls(operations[..n], number) ensures Calls(operations, number) {
        var i :| 0 <= i < n && operations[..n][i].tool == number;
        assert operations[i].tool == number;
      }
      assert Calls(operations, operations[n].tool);
      SameAnswersSameTools(operations[..n], left, right);
    }
  }

  lemma SwapCalls(operations: seq<Operation>, i: nat, j: nat, number: nat)
    requires i < |operations| && j < |operations|
    ensures Calls(operations, number) ==> Calls(Swapped(operations, i, j), number)
  {
    if Calls(operations, number) {
      var k :| 0 <= k < |operations| && operations[k].tool == number;
      assert Swapped(operations, i, j)[if k == i then j else if k == j then i else k].tool == number;
    }
  }

  /** Moving an operation and moving it back gives the plan again, when its
      tools stood in order of first use. */
  lemma MovedBack(plan: Plan, index: nat, earlier: bool)
    requires Moved(plan, index, earlier).Some? && plan.tools == ToolsInUse(plan.operations, plan.tools)
    ensures var target := if earlier then index - 1 else index + 1;
            target >= 0 && Moved(Moved(plan, index, earlier).value, target, !earlier) == Some(plan)
  {
    var target: nat := if earlier then index - 1 else index + 1;
    var moved := Moved(plan, index, earlier).value;
    assert Swapped(moved.operations, target, index) == plan.operations;
    forall number | Calls(plan.operations, number)
      ensures ToolNumbered(moved.tools, number) == ToolNumbered(plan.tools, number)
    {
      SwapCalls(plan.operations, index, target, number);
      KeptAnswer(moved.operations, plan.tools, number);
    }
    SameAnswersSameTools(plan.operations, moved.tools, plan.tools);
  }

  /** Moving an operation back heals even a refused reorder: the study is
      whole again. */
  lemma ReorderUndone(shop: Shop, c: Card, index: nat, earlier: bool)
    requires Front(c).Some? && Consistent(shop, Front(c).value)
    requires Moved(Front(c).value.plan, index, earlier).Some?
    requires Front(c).value.plan.tools == ToolsInUse(Front(c).value.plan.operations, Front(c).value.plan.tools)
    ensures var target := if earlier then index - 1 else index + 1;
            && target >= 0
            && Front(MoveOperation(shop, MoveOperation(shop, c, index, earlier), target, !earlier)) == Front(c)
  {
    MovedBack(Front(c).value.plan, index, earlier);
    RefusedReorderStays(shop, c, index, earlier);
    ReorderKeepsSubject(shop, c, index, earlier);
    var after := MoveOperation(shop, c, index, earlier);
    assert Front(after).value.plan == Moved(Front(c).value.plan, index, earlier).value;
  }

  lemma ReorderKeepsSubject(shop: Shop, c: Card, index: nat, earlier: bool)
    requires Front(c).Some?
    ensures var after := MoveOperation(shop, c, index, earlier);
            Front(after).Some? && Front(after).value.subject == Front(c).value.subject
  {
  }
}
