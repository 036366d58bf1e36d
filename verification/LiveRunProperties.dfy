/** What holds of the live run however its steps fall. */
module LiveRunProperties {
  import opened Results
  import opened LiveRun

  lemma StartKeeps(build: Engine, w: World)
    requires Inv(build, w)
    ensures Inv(build, StartRun(w))
  {
    var s := StartRun(w);
    forall g | g in w.threads ensures g < s.generation && (g != w.generation ==> w.threads[g].cancelled) {
    }
    assert ThreadsInOrder(s) by {
      forall g | g in s.threads
        ensures 1 <= g <= s.generation && s.threads[g].inputs == s.started[g - 1]
        ensures s.threads[g].cancelled <==> g < s.generation
        ensures g == s.generation ==> s.worker == Some(g)
        ensures !Sent(s, g)
      {
        if g < s.generation {
          assert g in w.threads;
        }
      }
    }
    ShownUnread(build, w.started, s.started, w.adopted);
  }

  lemma {:induction false} ShownUnread(build: Engine, started: seq<Inputs>, longer: seq<Inputs>, adopted: seq<nat>)
    requires forall i :: 0 <= i < |adopted| ==> 1 <= adopted[i] <= |started|
    requires started <= longer
    ensures Shown(build, started, adopted) == Shown(build, longer, adopted)
  {
    if adopted != [] {
      ShownUnread(build, started, longer, adopted[..|adopted| - 1]);
    }
  }

  lemma FinishKeeps(build: Engine, w: World, g: nat, noticed: bool)
    requires Inv(build, w) && g in w.threads && (noticed ==> w.threads[g].cancelled)
    ensures Inv(build, Finish(build, w, g, noticed))
  {
    var s := Finish(build, w, g, noticed);
    var o := s.channel[|w.channel|];
    assert o.generation == g && Answers(build, w.started, o);
    forall h | h in s.threads ensures !Sent(s, h) {
      assert h in w.threads;
    }
    forall i | 0 <= i < |w.channel| ensures w.channel[i].generation != g {
      assert !Sent(w, g);
    }
    if w.worker.Some? {
      if Sent(w, w.generation) {
        var i :| 0 <= i < |w.channel| && w.channel[i].generation == w.generation;
        assert s.channel[i].generation == w.generation;
      } else if g == w.generation {
        assert s.channel[|w.channel|].generation == w.generation;
      } else {
        assert w.generation in s.threads;
      }
    }
  }

  lemma ReceiveKeepsThreads(build: Engine, w: World)
    requires Inv(build, w) && w.channel != []
    ensures ThreadsInOrder(Receive(w))
  {
    var s := Receive(w);
    forall g | g in s.threads ensures !Sent(s, g) && g != w.channel[0].generation {
      assert !Sent(w, g);
    }
  }

  lemma ReceiveKeepsChannel(build: Engine, w: World)
    requires Inv(build, w) && w.channel != []
    ensures ChannelInOrder(build, Receive(w))
  {
    var s := Receive(w);
    forall i | 0 <= i < |s.channel|
      ensures s.channel[i] == w.channel[i + 1] && s.channel[i].generation != w.channel[0].generation
    {
    }
  }

  lemma ReceiveKeepsDebt(build: Engine, w: World)
    requires Inv(build, w) && w.channel != []
    ensures NewestIsOwed(Receive(w)) && AdoptedInOrder(Receive(w))
  {
    var s := Receive(w);
    if w.worker.Some? && w.worker != Some(w.channel[0].generation) && Sent(w, w.generation) {
      var i :| 0 <= i < |w.channel| && w.channel[i].generation == w.generation;
      assert s.channel[i - 1].generation == w.generation;
    }
  }

  lemma AnswerIsBuilt(build: Engine, started: seq<Inputs>, o: Outcome)
    requires Answers(build, started, o) && !o.cancelled
    ensures var b := build(started[o.generation - 1]); o == Outcome(o.generation, b.error, b.scene, b.snapshot, false)
  {
  }

  lemma ShownLast(build: Engine, started: seq<Inputs>, adopted: seq<nat>, g: nat, b: Build)
    requires forall i :: 0 <= i < |adopted| ==> 1 <= adopted[i] <= |started|
    requires 1 <= g <= |started| && b == build(started[g - 1])
    ensures Shown(build, started, adopted + [g]) ==
            Some(Adopt(Shown(build, started, adopted), Outcome(g, b.error, b.scene, b.snapshot, false)))
  {
    var longer := adopted + [g];
    assert longer[..|longer| - 1] == adopted;
  }

  lemma ShownNext(build: Engine, started: seq<Inputs>, adopted: seq<nat>, o: Outcome)
    requires forall i :: 0 <= i < |adopted| ==> 1 <= adopted[i] <= |started|
    requires Answers(build, started, o) && !o.cancelled
    ensures Shown(build, started, adopted + [o.generation]) == Some(Adopt(Shown(build, started, adopted), o))
  {
    AnswerIsBuilt(build, started, o);
    ShownLast(build, started, adopted, o.generation, build(started[o.generation - 1]));
  }

  lemma ReceiveShows(build: Engine, w: World)
    requires Inv(build, w) && w.channel != [] && AdoptedInOrder(Receive(w)) && |w.started| == w.generation
    ensures Receive(w).outcome == Shown(build, w.started, Receive(w).adopted)
  {
    var o := w.channel[0];
    if w.worker == Some(o.generation) {
      assert Answers(build, w.started, o) && !o.cancelled;
      ShownNext(build, w.started, w.adopted, o);
    }
  }

  lemma ReceiveLeaves(w: World)
    requires w.channel != []
    ensures var s := Receive(w);
            s.pending == w.pending && s.inputs == w.inputs && s.started == w.started && s.generation == w.generation
  {
  }

  lemma ReceiveKeeps(build: Engine, w: World)
    requires Inv(build, w) && w.channel != []
    ensures Inv(build, Receive(w))
  {
    ReceiveKeepsThreads(build, w);
    ReceiveKeepsChannel(build, w);
    ReceiveKeepsDebt(build, w);
    ReceiveShows(build, w);
    ReceiveLeaves(w);
  }

  lemma EditKeeps(build: Engine, w: World, s: World)
    requires Inv(build, w) && s == w.(inputs := s.inputs, pending := s.pending)
    requires s.pending || (!w.pending && s.inputs.text == w.inputs.text)
    ensures Inv(build, s)
  {
    forall g ensures Sent(s, g) <==> Sent(w, g) {
    }
  }

  lemma StepKeeps(build: Engine, w: World, e: Event)
    requires Inv(build, w) && Enabled(w, e)
    ensures Inv(build, Next(build, w, e))
  {
    var s := Next(build, w, e);
    match e
    case Started => StartKeeps(build, w);
    case Finished(g, noticed) => FinishKeeps(build, w, g, noticed);
    case Received => ReceiveKeeps(build, w);
    case _ => EditKeeps(build, w, s);
  }

  /** Everything above holds of every world a studio can come to. */
  lemma {:induction false} ReachedKeeps(build: Engine, opening: Inputs, events: seq<Event>, w: World)
    requires Reaches(build, opening, events, w)
    ensures Inv(build, w)
    decreases |events|
  {
    if events != [] {
      var last := |events| - 1;
      var before :| Reaches(build, opening, events[..last], before)
        && Enabled(before, events[last]) && w == Next(build, before, events[last]);
      ReachedKeeps(build, opening, events[..last], before);
      StepKeeps(build, before, events[last]);
    }
  }

  // -- the latest answer -----------------------------------------------------

  /** Only the newest generation is ever adopted, and only while its answer is
      awaited; no generation is adopted twice or after a later one. */
  lemma OnlyNewestIsAdopted(build: Engine, opening: Inputs, events: seq<Event>, w: World, e: Event)
    requires Reaches(build, opening, events, w) && Enabled(w, e)
    ensures var s := Next(build, w, e);
            && (s.adopted == w.adopted
                || (s.adopted == w.adopted + [w.generation] && w.worker == Some(w.generation) && s.worker == None))
            && (s.adopted != w.adopted ==> forall i :: 0 <= i < |w.adopted| ==> w.adopted[i] < w.generation)
  {
    ReachedKeeps(build, opening, events, w);
  }

  /** A studio that shows itself running will be answered: the newest start's
      thread is still alive or its outcome is on the way, and that outcome is
      not a cancelled one. */
  lemma RunningIsOwedAnAnswer(build: Engine, opening: Inputs, events: seq<Event>, w: World)
    requires Reaches(build, opening, events, w) && w.worker.Some?
    ensures w.generation in w.threads <==> !Sent(w, w.generation)
    ensures w.generation in w.threads ==> !w.threads[w.generation].cancelled
    ensures forall i :: 0 <= i < |w.channel| && w.channel[i].generation == w.generation ==> !w.channel[i].cancelled
  {
    ReachedKeeps(build, opening, events, w);
  }

  /** A studio at rest answers its last start, and that start read the text
      now in the editor unless an edit is waiting. */
  lemma RestAnswersLastStart(build: Engine, opening: Inputs, events: seq<Event>, w: World)
    requires Reaches(build, opening, events, w) && w.worker.None? && w.generation > 0
    ensures |w.started| == w.generation && w.outcome.Some?
    ensures w.outcome.value.generation == w.generation
    ensures w.outcome.value.error == build(w.started[w.generation - 1]).error
    ensures !w.pending ==> w.inputs.text == w.started[w.generation - 1].text
  {
    ReachedKeeps(build, opening, events, w);
  }

  // -- the model on show -----------------------------------------------------

  /** A run that built something, or had nothing to complain of. */
  predicate Replaces(b: Build) {
    b.scene.Some? || !b.error
  }

  predicate Numbered(started: seq<Inputs>, adopted: seq<nat>) {
    forall i :: 0 <= i < |adopted| ==> 1 <= adopted[i] <= |started|
  }

  /** The `k`th adopted run replaced the model and none after it did. */
  predicate LatestModel(build: Engine, started: seq<Inputs>, adopted: seq<nat>, k: nat)
    requires Numbered(started, adopted)
  {
    && k < |adopted|
    && Replaces(build(started[adopted[k] - 1]))
    && NoModel(build, started, adopted, k + 1)
  }

  /** No run adopted from the `k`th on replaced the model. */
  predicate NoModel(build: Engine, started: seq<Inputs>, adopted: seq<nat>, k: nat)
    requires Numbered(started, adopted)
  {
    forall i :: k <= i < |adopted| ==> !Replaces(build(started[adopted[i] - 1]))
  }

  lemma {:induction false} ShownIsOf(build: Engine, started: seq<Inputs>, adopted: seq<nat>, k: nat)
    requires Numbered(started, adopted) && LatestModel(build, started, adopted, k)
    ensures var shown := Shown(build, started, adopted);
            && shown.Some?
            && shown.value.scene == build(started[adopted[k] - 1]).scene
            && shown.value.snapshot == build(started[adopted[k] - 1]).snapshot
  {
    if k < |adopted| - 1 {
      ShownIsOf(build, started, adopted[..|adopted| - 1], k);
    }
  }

  lemma {:induction false} NothingShown(build: Engine, started: seq<Inputs>, adopted: seq<nat>)
    requires Sound(build) && Numbered(started, adopted) && NoModel(build, started, adopted, 0)
    ensures var shown := Shown(build, started, adopted);
            shown.Some? ==> shown.value.scene.None? && shown.value.snapshot.None?
  {
    if adopted != [] {
      NothingShown(build, started, adopted[..|adopted| - 1]);
    }
  }

  lemma ReachedShows(build: Engine, opening: Inputs, events: seq<Event>, w: World)
    requires Reaches(build, opening, events, w)
    ensures |w.started| == w.generation && Numbered(w.started, w.adopted)
    ensures w.outcome == Shown(build, w.started, w.adopted)
  {
    ReachedKeeps(build, opening, events, w);
  }

  lemma ShownModel(build: Engine, started: seq<Inputs>, adopted: seq<nat>, shown: Option<Outcome>, k: nat)
    requires Sound(build) && Numbered(started, adopted) && shown == Shown(build, started, adopted)
    ensures LatestModel(build, started, adopted, k) ==>
            && shown.Some?
            && shown.value.scene == build(started[adopted[k] - 1]).scene
            && shown.value.snapshot == build(started[adopted[k] - 1]).snapshot
    ensures NoModel(build, started, adopted, 0) && shown.Some? ==>
            shown.value.scene.None? && shown.value.snapshot.None?
  {
    if LatestModel(build, started, adopted, k) {
      ShownIsOf(build, started, adopted, k);
    }
    if NoModel(build, started, adopted, 0) {
      NothingShown(build, started, adopted);
    }
  }

  /** The model on show is that of the latest adopted run that built something
      or had no error, scene and snapshot of the same run; and there is none
      while no such run has been adopted. */
  lemma ModelOnShow(build: Engine, opening: Inputs, events: seq<Event>, w: World, k: nat)
    requires Sound(build) && Reaches(build, opening, events, w)
    ensures |w.started| == w.generation && Numbered(w.started, w.adopted)
    ensures LatestModel(build, w.started, w.adopted, k) ==>
            && w.outcome.Some?
            && w.outcome.value.scene == build(w.started[w.adopted[k] - 1]).scene
            && w.outcome.value.snapshot == build(w.started[w.adopted[k] - 1]).snapshot
    ensures NoModel(build, w.started, w.adopted, 0) && w.outcome.Some? ==>
            w.outcome.value.scene.None? && w.outcome.value.snapshot.None?
  {
    ReachedShows(build, opening, events, w);
    ShownModel(build, w.started, w.adopted, w.outcome, k);
  }

  // -- a stale path ----------------------------------------------------------

  /** What the events alone say of the inputs, of the starts, and of whether
      an edit waits. */
  function InputsAfter(opening: Inputs, events: seq<Event>): Inputs {
    if events == [] then opening
    else
      var before := InputsAfter(opening, events[..|events| - 1]);
      match events[|events| - 1]
      case Edited(inputs) => inputs
      case SavedTo(path) => before.(path := Some(path))
      case _ => before
  }

  function StartsIn(opening: Inputs, events: seq<Event>): seq<Inputs> {
    if events == [] then []
    else
      var init := events[..|events| - 1];
      StartsIn(opening, init) + (if events[|events| - 1].Started? then [InputsAfter(opening, init)] else [])
  }

  function EditWaits(events: seq<Event>): bool {
    if events == [] then true
    else
      match events[|events| - 1]
      case Edited(_) => true
      case Started => false
      case _ => EditWaits(events[..|events| - 1])
  }

  ghost predicate FollowsEvents(opening: Inputs, events: seq<Event>, w: World) {
    w.inputs == InputsAfter(opening, events) && w.started == StartsIn(opening, events) && w.pending == EditWaits(events)
  }

  lemma FollowsNext(build: Engine, opening: Inputs, events: seq<Event>, w: World, e: Event)
    requires FollowsEvents(opening, events, w) && Enabled(w, e)
    ensures FollowsEvents(opening, events + [e], Next(build, w, e))
  {
    assert (events + [e])[..|events|] == events;
  }

  lemma {:induction false} ReachedFollows(build: Engine, opening: Inputs, events: seq<Event>, w: World)
    requires Reaches(build, opening, events, w)
    ensures FollowsEvents(opening, events, w)
    decreases |events|
  {
    if events != [] {
      var last := |events| - 1;
      var before :| Reaches(build, opening, events[..last], before)
        && Enabled(before, events[last]) && w == Next(build, before, events[last]);
      ReachedFollows(build, opening, events[..last], before);
      FollowsNext(build, opening, events[..last], before, events[last]);
      assert events == events[..last] + [events[last]];
    }
  }

  /** The last place the script was saved to. */
  function LastSaved(events: seq<Event>): Option<string> {
    if events == [] then None
    else if events[|events| - 1].SavedTo? then Some(events[|events| - 1].path)
    else LastSaved(events[..|events| - 1])
  }

  /** No start after this one. */
  ghost predicate IsLastStart(events: seq<Event>, s: nat) {
    s < |events| && events[s] == Started && forall k :: s < k < |events| ==> !events[k].Started?
  }

  lemma {:induction false} LastStart(opening: Inputs, events: seq<Event>) returns (s: nat)
    requires StartsIn(opening, events) != []
    ensures IsLastStart(events, s)
    ensures StartsIn(opening, events)[|StartsIn(opening, events)| - 1] == InputsAfter(opening, events[..s])
  {
    var last := |events| - 1;
    if events[last].Started? {
      s := last;
    } else {
      s := LastStart(opening, events[..last]);
      assert events[..last][..s] == events[..s];
    }
  }

  /** With no edit waiting, only saves can have touched the inputs since the
      last start. */
  lemma {:induction false} InputsSinceStart(opening: Inputs, events: seq<Event>, s: nat)
    requires IsLastStart(events, s) && !EditWaits(events)
    ensures var read := InputsAfter(opening, events[..s]);
            InputsAfter(opening, events) ==
            match LastSaved(events[s + 1..]) case None => read case Some(path) => read.(path := Some(path))
  {
    var last := |events| - 1;
    if s < last {
      InputsSinceStart(opening, events[..last], s);
      assert events[..last][..s] == events[..s];
      assert events[..last][s + 1..] == events[s + 1..][..last - s - 1];
    } else {
      assert events[s + 1..] == [];
    }
  }

  /** The answer on show is for the inputs as they are now. */
  predicate AnswersNow(w: World) {
    |w.started| > 0 && w.inputs == w.started[|w.started| - 1]
  }

  /** At rest with no edit waiting, only the path can have gone stale. */
  lemma OnlyThePathGoesStale(build: Engine, opening: Inputs, events: seq<Event>, w: World)
    requires Reaches(build, opening, events, w) && w.worker.None? && !w.pending
    ensures |w.started| > 0
    ensures AnswersNow(w) <==> w.inputs.path == w.started[|w.started| - 1].path
  {
    ReachedKeeps(build, opening, events, w);
  }

  /** At rest with no edit waiting, the answer on show is for the current
      inputs exactly when no save since the last start has left the script at
      another place than that start read. */
  lemma RestAnswersNowExactly(build: Engine, opening: Inputs, events: seq<Event>, w: World) returns (s: nat)
    requires Reaches(build, opening, events, w) && w.worker.None? && !w.pending
    ensures IsLastStart(events, s)
    ensures w.outcome.Some? && w.outcome.value.generation == w.generation == |w.started| > 0
    ensures w.started[|w.started| - 1] == InputsAfter(opening, events[..s])
    ensures w.outcome.value.error == build(InputsAfter(opening, events[..s])).error
    ensures AnswersNow(w) <==>
            match LastSaved(events[s + 1..])
            case None => true
            case Some(path) => InputsAfter(opening, events[..s]).path == Some(path)
  {
    ReachedKeeps(build, opening, events, w);
    RestAnswersLastStart(build, opening, events, w);
    ReachedFollows(build, opening, events, w);
    s := LastStart(opening, events);
    InputsSinceStart(opening, events, s);
  }

  lemma OneRun(build: Engine, opening: Inputs) returns (w: World)
    ensures Reaches(build, opening, [Started] + [Finished(1, false)] + [Received], w)
    ensures w.worker.None? && !w.pending && w.outcome.Some? && w.inputs == opening
    ensures w.outcome.value.error == build(opening).error
  {
    var w0 := Fresh(opening);
    var w1 := Next(build, w0, Started);
    var w2 := Next(build, w1, Finished(1, false));
    w := Next(build, w2, Received);
    assert [] + [Started] == [Started];
    Extend(build, opening, [], w0, Started);
    Extend(build, opening, [Started], w1, Finished(1, false));
    Extend(build, opening, [Started] + [Finished(1, false)], w2, Received);
  }

  /** Saving moves the script without starting a run, so a studio at rest with
      nothing waiting can show the answer for the old place. */
  lemma SavingLeavesTheOldAnswer(build: Engine, text: string, path: string) returns (w: World)
    requires build(Inputs(text, None)).error != build(Inputs(text, Some(path))).error
    ensures Reaches(build, Inputs(text, None), [Started, Finished(1, false), Received, SavedTo(path)], w)
    ensures w.worker.None? && !w.pending && w.outcome.Some?
    ensures w.outcome.value.error != build(w.inputs).error
  {
    var opening := Inputs(text, None);
    var before := OneRun(build, opening);
    w := Next(build, before, SavedTo(path));
    var run := [Started] + [Finished(1, false)] + [Received];
    Extend(build, opening, run, before, SavedTo(path));
    assert run + [SavedTo(path)] == [Started, Finished(1, false), Received, SavedTo(path)];
  }

  lemma Extend(build: Engine, opening: Inputs, events: seq<Event>, w: World, e: Event)
    requires Reaches(build, opening, events, w) && Enabled(w, e)
    ensures Reaches(build, opening, events + [e], Next(build, w, e))
  {
    var longer := events + [e];
    assert longer[..|longer| - 1] == events;
  }

  // -- polling ---------------------------------------------------------------

  /** One poll is the arrivals taken in one by one. */
  lemma ReceivedInRow(events: seq<Event>, n: nat)
    requires n > 0
    ensures events + [Received] + seq(n - 1, i => Received) == events + seq(n, i => Received)
  {
  }

  lemma {:induction false} PollReceives(build: Engine, opening: Inputs, events: seq<Event>, w: World)
    requires Reaches(build, opening, events, w)
    ensures Reaches(build, opening, events + seq(|w.channel|, i => Received), Poll(w))
    ensures Poll(w).channel == []
    decreases |w.channel|
  {
    var here := seq(|w.channel|, i => Received);
    if w.channel == [] {
      assert events + here == events;
    } else {
      Extend(build, opening, events, w, Received);
      PollReceives(build, opening, events + [Received], Receive(w));
      ReceivedInRow(events, |w.channel|);
    }
  }
}
