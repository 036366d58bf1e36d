/**
  The studio's live run: each start supersedes the last, worker threads send
  one outcome each, and the window takes in what has arrived.
*/
module LiveRun {
  import opened Results

  /** What a run reads: the text with the customizer's values, and the file
      beside which its modules lie. */
  datatype Inputs = Inputs(text: string, path: Option<string>)

  datatype Build = Build(error: bool, scene: Option<nat>, snapshot: Option<nat>)

  /** Running a script to its end, undisturbed. */
  type Engine = Inputs -> Build

  /** A run keeps its scene and its snapshot together. */
  ghost predicate Sound(build: Engine) {
    forall i :: build(i).scene.Some? <==> build(i).snapshot.Some?
  }

  datatype Outcome = Outcome(generation: nat, error: bool, scene: Option<nat>, snapshot: Option<nat>, cancelled: bool)

  /** A worker thread, and whether its token has been cancelled. */
  datatype Thread = Thread(inputs: Inputs, cancelled: bool)

  /** The studio, its threads and its channel; `started` and `adopted` are the
      history of starts, and of generations adopted. */
  datatype World = World(
    inputs: Inputs,
    pending: bool,
    generation: nat,
    worker: Option<nat>,
    outcome: Option<Outcome>,
    threads: map<nat, Thread>,
    channel: seq<Outcome>,
    started: seq<Inputs>,
    adopted: seq<nat>)

  function Fresh(inputs: Inputs): World {
    World(inputs, true, 0, None, None, map[], [], [], [])
  }

  // -- the steps -------------------------------------------------------------

  function Cancelled(threads: map<nat, Thread>, worker: Option<nat>): map<nat, Thread> {
    if worker.Some? && worker.value in threads then
      threads[worker.value := threads[worker.value].(cancelled := true)]
    else
      threads
  }

  function StartRun(w: World): World {
    var g := w.generation + 1;
    w.(generation := g,
       pending := false,
       worker := Some(g),
       threads := Cancelled(w.threads, w.worker)[g := Thread(w.inputs, false)],
       started := w.started + [w.inputs])
  }

  /** A thread ends and sends its one outcome; it may have noticed a
      cancelled token. */
  function Finish(build: Engine, w: World, g: nat, noticed: bool): World
    requires g in w.threads
  {
    var b := build(w.threads[g].inputs);
    var o := if noticed then Outcome(g, false, None, None, true) else Outcome(g, b.error, b.scene, b.snapshot, false);
    w.(threads := w.threads - {g}, channel := w.channel + [o])
  }

  /** What is shown once an outcome is adopted over the one before. */
  function Adopt(shown: Option<Outcome>, o: Outcome): Outcome {
    if o.scene.None? && o.error && shown.Some? then
      o.(scene := shown.value.scene, snapshot := shown.value.snapshot)
    else
      o
  }

  function Receive(w: World): World
    requires w.channel != []
  {
    var o, rest := w.channel[0], w.channel[1..];
    if w.worker != Some(o.generation) then
      w.(channel := rest)
    else if o.cancelled then
      w.(channel := rest, worker := None)
    else
      w.(channel := rest, worker := None, outcome := Some(Adopt(w.outcome, o)), adopted := w.adopted + [o.generation])
  }

  function Poll(w: World): World
    decreases |w.channel|
  {
    if w.channel == [] then w else Poll(Receive(w))
  }

  // -- the window's own side -------------------------------------------------

  class Studio {
    var inputs: Inputs
    var pending: bool
    var generation: nat
    var worker: Option<nat>
    var outcome: Option<Outcome>
    var threads: map<nat, Thread>
    var channel: seq<Outcome>
    ghost var started: seq<Inputs>
    ghost var adopted: seq<nat>

    ghost function State(): World
      reads this
    {
      World(inputs, pending, generation, worker, outcome, threads, channel, started, adopted)
    }

    constructor (opening: Inputs)
      ensures State() == Fresh(opening)
    {
      inputs, pending, generation, worker, outcome := opening, true, 0, None, None;
      threads, channel, started, adopted := map[], [], [], [];
    }

    method Start()
      modifies this
      ensures State() == StartRun(old(State()))
    {
      if worker.Some? {
        if worker.value in threads {
          threads := threads[worker.value := threads[worker.value].(cancelled := true)];
        }
        worker := None;
      }
      generation := generation + 1;
      pending := false;
      threads := threads[generation := Thread(inputs, false)];
      started := started + [inputs];
      worker := Some(generation);
    }

    method PollWorker()
      modifies this
      ensures State() == Poll(old(State()))
    {
      while channel != []
        invariant Poll(State()) == Poll(old(State()))
        decreases |channel|
      {
        var arrived := channel[0];
        channel := channel[1..];
        if worker != Some(arrived.generation) {
          continue;
        }
        worker := None;
        if arrived.cancelled {
          continue;
        }
        AdoptOutcome(arrived);
      }
    }

    method AdoptOutcome(arrived: Outcome)
      modifies this`outcome, this`adopted
      ensures outcome == Some(Adopt(old(outcome), arrived))
      ensures adopted == old(adopted) + [arrived.generation]
    {
      var taken := arrived;
      if taken.scene.None? && taken.error && outcome.Some? {
        var previous := outcome.value;
        taken := taken.(scene := previous.scene, snapshot := previous.snapshot);
      }
      adopted := adopted + [arrived.generation];
      outcome := Some(taken);
    }
  }

  // -- runs ------------------------------------------------------------------

  datatype Event =
    | Edited(inputs: Inputs)
    | SavedTo(path: string)
    | Started
    | Finished(generation: nat, noticed: bool)
    | Received

  predicate Enabled(w: World, e: Event) {
    match e
    case Finished(g, noticed) => g in w.threads && (noticed ==> w.threads[g].cancelled)
    case Received => w.channel != []
    case _ => true
  }

  function Next(build: Engine, w: World, e: Event): World
    requires Enabled(w, e)
  {
    match e
    case Edited(inputs) => w.(inputs := inputs, pending := true)
    case SavedTo(path) => w.(inputs := w.inputs.(path := Some(path)))
    case Started => StartRun(w)
    case Finished(g, noticed) => Finish(build, w, g, noticed)
    case Received => Receive(w)
  }

  /** The worlds a studio can come to, under any interleaving. */
  ghost predicate Reaches(build: Engine, opening: Inputs, events: seq<Event>, w: World)
    decreases |events|
  {
    if events == [] then w == Fresh(opening)
    else
      var last := |events| - 1;
      exists before :: Reaches(build, opening, events[..last], before)
        && Enabled(before, events[last]) && w == Next(build, before, events[last])
  }

  // -- the invariant ---------------------------------------------------------

  /** An outcome is what its start would build, unless it was cancelled. */
  predicate Answers(build: Engine, started: seq<Inputs>, o: Outcome) {
    && 1 <= o.generation <= |started|
    && var b := build(started[o.generation - 1]);
       if o.cancelled then !o.error && o.scene.None? && o.snapshot.None?
       else o.error == b.error && o.scene == b.scene && o.snapshot == b.snapshot
  }

  /** Threads are of past or present generations; all but the present one have
      been cancelled. */
  ghost predicate ThreadsInOrder(w: World) {
    forall g :: g in w.threads ==>
      && 1 <= g <= w.generation == |w.started|
      && w.threads[g].inputs == w.started[g - 1]
      && (w.threads[g].cancelled <==> g < w.generation)
      && (g == w.generation ==> w.worker == Some(g))
      && !Sent(w, g)
  }

  predicate Sent(w: World, g: nat) {
    exists i :: 0 <= i < |w.channel| && w.channel[i].generation == g
  }

  ghost predicate ChannelInOrder(build: Engine, w: World) {
    && (forall i :: 0 <= i < |w.channel| ==> Answers(build, w.started, w.channel[i]))
    && (forall i :: 0 <= i < |w.channel| && w.channel[i].generation == w.generation ==>
          !w.channel[i].cancelled && w.worker == Some(w.generation))
    && (forall i, j :: 0 <= i < j < |w.channel| ==> w.channel[i].generation != w.channel[j].generation)
  }

  ghost predicate AdoptedInOrder(w: World) {
    && (forall i :: 0 <= i < |w.adopted| ==> 1 <= w.adopted[i] <= w.generation)
    && (forall i, j :: 0 <= i < j < |w.adopted| ==> w.adopted[i] < w.adopted[j])
    && (w.worker.Some? ==> forall i :: 0 <= i < |w.adopted| ==> w.adopted[i] < w.generation)
  }

  /** A worker in hand is the newest and still owes its answer; with none in
      hand, the newest has been adopted. */
  ghost predicate NewestIsOwed(w: World) {
    && |w.started| == w.generation
    && (w.worker.Some? ==> w.worker.value == w.generation && (w.generation in w.threads || Sent(w, w.generation)))
    && (w.worker.None? && w.generation > 0 ==> |w.adopted| > 0 && w.adopted[|w.adopted| - 1] == w.generation)
  }

  /** What the adopted generations, in turn, have left on show. */
  ghost function Shown(build: Engine, started: seq<Inputs>, adopted: seq<nat>): Option<Outcome>
    requires forall i :: 0 <= i < |adopted| ==> 1 <= adopted[i] <= |started|
  {
    if adopted == [] then None
    else
      var g := adopted[|adopted| - 1];
      var b := build(started[g - 1]);
      Some(Adopt(Shown(build, started, adopted[..|adopted| - 1]), Outcome(g, b.error, b.scene, b.snapshot, false)))
  }

  ghost predicate Inv(build: Engine, w: World) {
    && NewestIsOwed(w)
    && ThreadsInOrder(w)
    && ChannelInOrder(build, w)
    && AdoptedInOrder(w)
    && w.outcome == Shown(build, w.started, w.adopted)
    && (!w.pending ==> w.generation > 0 && w.inputs.text == w.started[w.generation - 1].text)
  }
}
