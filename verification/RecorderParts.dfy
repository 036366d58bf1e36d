/**
  How a session is split into files and flushed, by the sizes and the clock
  readings of its steps: no event goes to a part that is already full, a part
  is opened only for a full or an old one, and no critical event waits.
*/
module RecorderParts {
  import opened Recorder
  import opened RecorderProperties

  // -- sizes, by the steps ---------------------------------------------------

  /** The size of the write a step makes for a record of this kind. */
  function SizeIn(step: Step, body: Body): nat {
    match step
    case Receive(_, _, write, _, finish) => if body.Finish? then finish.size else write.size
    case TimeOut(write) => write.size
    case Disconnect(write, finish) => if body.Finish? then finish.size else write.size
    case _ => 0
  }

  /** The size of a record, at the step that brought it to the log. */
  function SizeOf(steps: seq<Step>, record: Record): nat {
    if steps == [] then 0
    else
      var init := steps[..|steps| - 1];
      if record in Log(Run(init)) then SizeOf(init, record) else SizeIn(steps[|steps| - 1], record.body)
  }

  function Total(size: Record -> nat, records: seq<Record>): nat {
    if records == [] then 0 else Total(size, records[..|records| - 1]) + size(records[|records| - 1])
  }

  /** The bytes these records take in their file. */
  function Bytes(steps: seq<Step>, records: seq<Record>): nat {
    Total(r => SizeOf(steps, r), records)
  }

  const EIGHT_MIB: nat := 8_388_608

  /** Every event went to a part whose records before it were short of the
      limit. */
  ghost predicate NeverOver(size: Record -> nat, parts: seq<seq<Record>>) {
    forall k, j :: 0 <= k < |parts| && 0 <= j < |parts[k]| && parts[k][j].body.Event? ==>
      Total(size, parts[k][..j]) < EIGHT_MIB
  }

  // -- the writer keeps count ------------------------------------------------

  ghost predicate Counts(w: Writer, size: Record -> nat) {
    && w.parts != []
    && w.bytesWritten == Total(size, w.parts[|w.parts| - 1])
    && NeverOver(size, w.parts)
  }

  lemma TotalNext(size: Record -> nat, part: seq<Record>, record: Record)
    ensures Total(size, part + [record]) == Total(size, part) + size(record)
  {
    assert (part + [record])[..|part|] == part;
  }

  lemma NeverOverNext(size: Record -> nat, parts: seq<seq<Record>>, last: nat, record: Record)
    requires last == |parts| - 1 && NeverOver(size, parts)
    requires record.body.Event? ==> Total(size, parts[last]) < EIGHT_MIB
    ensures NeverOver(size, parts[last := parts[last] + [record]])
  {
    var part := parts[last] + [record];
    var after: seq<seq<Record>> := parts[last := part];
    forall k, j | 0 <= k < |after| && 0 <= j < |after[k]| && after[k][j].body.Event?
      ensures Total(size, after[k][..j]) < EIGHT_MIB
    {
      if k == last {
        assert part[..j] == parts[last][..j];
        assert j == |parts[last]| ==> parts[last][..j] == parts[last];
      }
    }
  }

  lemma AppendCounts(w: Writer, record: Record, write: Write, size: Record -> nat)
    requires Counts(w, size)
    requires write.ok ==> size(record) == write.size
    requires write.ok && record.body.Event? ==> w.bytesWritten < EIGHT_MIB
    ensures Counts(Append(w, record, write), size)
  {
    if write.ok {
      var last := |w.parts| - 1;
      TotalNext(size, w.parts[last], record);
      NeverOverNext(size, w.parts, last, record);
    }
  }

  lemma NumberCounts(w: Writer, body: Body, write: Write, size: Record -> nat)
    requires Counts(w, size)
    requires write.ok ==> size(Record(w.lastSequence + 1, body)) == write.size
    requires write.ok && body.Event? ==> w.bytesWritten < EIGHT_MIB
    ensures Counts(Number(w, body, write), size)
  {
    AppendCounts(w.(lastSequence := w.lastSequence + 1), Record(w.lastSequence + 1, body), write, size);
  }

  lemma RotateCounts(w: Writer, size: Record -> nat)
    requires Counts(w, size)
    ensures Counts(Rotate(w), size) && Rotate(w).bytesWritten == 0
  {
  }

  /** A new record's size is the one its step gives it. */
  ghost predicate NewSizes(w: Writer, step: Step, size: Record -> nat) {
    forall n: nat, body :: n > w.lastSequence ==> size(Record(n, body)) == SizeIn(step, body)
  }

  lemma CloseCounts(w: Writer, finish: Write, size: Record -> nat)
    requires Counts(w, size) && size(Record(w.lastSequence + 1, Finish)) == finish.size
    ensures Counts(Close(w, finish), size)
  {
    NumberCounts(w, Finish, finish, size);
  }

  lemma UnflushedCounts(w: Writer, unflushed: nat, size: Record -> nat)
    requires Counts(w, size)
    ensures Counts(w.(unflushed := unflushed), size)
  {
  }

  lemma CurrentCounts(w: Writer, pending: Pending, step: Step, size: Record -> nat)
    requires step.Receive? && Counts(w, size) && NewSizes(w, step, size) && w.bytesWritten < EIGHT_MIB
    ensures Counts(AppendToCurrent(w, pending, step), size)
  {
    var written := Number(w, Event(pending), step.write);
    NumberCounts(w, Event(pending), step.write, size);
    if step.write.ok {
      UnflushedCounts(written, AppendToCurrent(w, pending, step).unflushed, size);
    } else {
      CloseCounts(written, step.finish, size);
    }
  }

  lemma EventCounts(w: Writer, pending: Pending, step: Step, size: Record -> nat)
    requires step.Receive? && Counts(w, size) && NewSizes(w, step, size)
    ensures Counts(WriteEvent(w, pending, step), size)
  {
    if !MustRotate(w, step.aged) {
      CurrentCounts(w, pending, step, size);
    } else if step.rotation.Rotates? {
      RotateCounts(w, size);
      CurrentCounts(Rotate(w), pending, step, size);
    } else {
      NumberCounts(Forfeit(w), Finish, step.finish, size);
    }
  }

  lemma DroppedCounts(w: Writer, dropped: nat, write: Write, step: Step, size: Record -> nat)
    requires Counts(w, size) && NewSizes(w, step, size) && SizeIn(step, Dropped(dropped)) == write.size
    ensures Counts(AppendDropped(w, dropped, write), size)
  {
    if dropped != 0 {
      NumberCounts(w, Dropped(dropped), write, size);
    }
  }

  lemma StepCounts(s: Session, step: Step, size: Record -> nat)
    requires Counts(s.writer, size) && NewSizes(s.writer, step, size)
    ensures Counts(Next(s, step).writer, size)
  {
    match step
    case Receive(_, _, _, _, _) =>
      if s.writer.running && s.queue != [] {
        EventCounts(s.writer, s.queue[0], step, size);
      }
    case TimeOut(write) => DroppedCounts(s.writer, s.dropped, write, step, size);
    case Disconnect(write, finish) =>
      DroppedCounts(s.writer, s.dropped, write, step, size);
      NumberCounts(AppendDropped(s.writer, s.dropped, write), Finish, finish, size);
    case _ =>
  }

  // -- over the run ----------------------------------------------------------

  lemma {:induction false} InLog(parts: seq<seq<Record>>, k: nat, j: nat)
    requires k < |parts| && j < |parts[k]|
    ensures parts[k][j] in Records(parts)
  {
    if k < |parts| - 1 {
      InLog(parts[..|parts| - 1], k, j);
    }
  }

  lemma {:induction false} SameTotal(size: Record -> nat, other: Record -> nat, records: seq<Record>)
    requires forall r :: r in records ==> size(r) == other(r)
    ensures Total(size, records) == Total(other, records)
  {
    if records != [] {
      var init := records[..|records| - 1];
      assert forall r :: r in init ==> r in records;
      SameTotal(size, other, init);
    }
  }

  lemma SameCounts(w: Writer, size: Record -> nat, other: Record -> nat)
    requires Counts(w, size) && forall r :: r in Records(w.parts) ==> size(r) == other(r)
    ensures Counts(w, other)
  {
    forall k, j | 0 <= k < |w.parts| && 0 <= j <= |w.parts[k]|
      ensures Total(other, w.parts[k][..j]) == Total(size, w.parts[k][..j])
    {
      PartInLog(w.parts, k, j);
      SameTotal(size, other, w.parts[k][..j]);
    }
    var last := w.parts[|w.parts| - 1];
    assert last[..|last|] == last;
  }

  lemma PartInLog(parts: seq<seq<Record>>, k: nat, j: nat)
    requires k < |parts| && j <= |parts[k]|
    ensures forall r :: r in parts[k][..j] ==> r in Records(parts)
  {
    forall r | r in parts[k][..j] ensures r in Records(parts) {
      var i :| 0 <= i < j && parts[k][i] == r;
      InLog(parts, k, i);
    }
  }

  lemma StepSizes(steps: seq<Step>)
    requires steps != []
    ensures var init := steps[..|steps| - 1];
            && NewSizes(Run(init).writer, steps[|steps| - 1], r => SizeOf(steps, r))
            && (forall r :: r in Log(Run(init)) ==> SizeOf(steps, r) == SizeOf(init, r))
  {
    var init := steps[..|steps| - 1];
    SequenceNumbersSpentOnce(init);
    var w := Run(init).writer;
    forall n: nat, body | n > w.lastSequence
      ensures SizeOf(steps, Record(n, body)) == SizeIn(steps[|steps| - 1], body)
    {
      assert Record(n, body) !in Records(w.parts);
    }
  }

  lemma {:induction false} RunCounts(steps: seq<Step>)
    ensures Counts(Run(steps).writer, r => SizeOf(steps, r))
  {
    if steps != [] {
      var init := steps[..|steps| - 1];
      RunCounts(init);
      StepSizes(steps);
      SameCounts(Run(init).writer, r => SizeOf(init, r), r => SizeOf(steps, r));
      StepCounts(Run(init), steps[|steps| - 1], r => SizeOf(steps, r));
    }
  }

  /** In every session no event is ever added to a part whose records before
      it already come to eight mebibytes. */
  lemma NoEventInAFullPart(steps: seq<Step>, k: nat, j: nat)
    requires k < |Run(steps).writer.parts| && j < |Run(steps).writer.parts[k]|
    requires Run(steps).writer.parts[k][j].body.Event?
    ensures Bytes(steps, Run(steps).writer.parts[k][..j]) < EIGHT_MIB
  {
    RunCounts(steps);
  }

  /** The part being written is full, or the clock says it is old. */
  ghost predicate PartIsOver(steps: seq<Step>, aged: bool) {
    var parts := Run(steps).writer.parts;
    Bytes(steps, parts[|parts| - 1]) >= EIGHT_MIB || aged
  }

  ghost predicate Receives(s: Session, step: Step) {
    step.Receive? && s.writer.running && s.queue != []
  }

  /** A part is opened exactly when an event comes to a part that is over and
      the new file opens; the parts before the current one never change, and a
      part that is over takes no further event. */
  lemma PartsOpenExactly(steps: seq<Step>, step: Step)
    ensures var s, parts := Run(steps), Run(steps).writer.parts;
            var after, last := Run(steps + [step]).writer, |parts| - 1;
            && after.parts[..last] == parts[..last] && parts[last] <= after.parts[last]
            && |after.parts| ==
               |parts| + (if Receives(s, step) && PartIsOver(steps, step.aged) && step.rotation.Rotates? then 1 else 0)
            && (Receives(s, step) && PartIsOver(steps, step.aged) ==>
                  if step.rotation.Rotates? then after.parts[last] == parts[last] else !after.running)
  {
    RunCounts(steps);
    Then(steps, step);
    assert PartIsOver(steps, false) <==> MustRotate(Run(steps).writer, false);
    if Receives(Run(steps), step) {
      EventParts(Run(steps).writer, Run(steps).queue[0], step);
    } else {
      OtherParts(Run(steps), step);
    }
  }

  /** The parts before the current one stay, and it only grows. */
  ghost predicate GrowsLast(parts: seq<seq<Record>>, after: seq<seq<Record>>) {
    && |after| == |parts| > 0
    && after[..|parts| - 1] == parts[..|parts| - 1] && parts[|parts| - 1] <= after[|parts| - 1]
  }

  lemma NumberGrowsLast(w: Writer, body: Body, write: Write)
    requires w.parts != []
    ensures GrowsLast(w.parts, Number(w, body, write).parts)
  {
  }

  lemma CurrentGrowsLast(w: Writer, pending: Pending, step: Step)
    requires w.parts != [] && step.Receive?
    ensures GrowsLast(w.parts, AppendToCurrent(w, pending, step).parts)
  {
    NumberGrowsLast(w, Event(pending), step.write);
    NumberGrowsLast(Number(w, Event(pending), step.write), Finish, step.finish);
  }

  lemma EventParts(w: Writer, pending: Pending, step: Step)
    requires w.parts != [] && step.Receive?
    ensures var after := WriteEvent(w, pending, step);
            if MustRotate(w, step.aged) && step.rotation.Rotates? then GrowsLast(w.parts + [[]], after.parts)
            else GrowsLast(w.parts, after.parts) && (MustRotate(w, step.aged) ==> !after.running)
  {
    CurrentGrowsLast(w, pending, step);
    CurrentGrowsLast(Rotate(w), pending, step);
    NumberGrowsLast(Forfeit(w), Finish, step.finish);
  }

  lemma OtherParts(s: Session, step: Step)
    requires s.writer.parts != [] && !Receives(s, step)
    ensures GrowsLast(s.writer.parts, Next(s, step).writer.parts)
  {
    match step
    case TimeOut(write) => NumberGrowsLast(s.writer, Dropped(s.dropped), write);
    case Disconnect(write, finish) =>
      NumberGrowsLast(s.writer, Dropped(s.dropped), write);
      NumberGrowsLast(AppendDropped(s.writer, s.dropped, write), Finish, finish);
    case _ =>
  }

  // -- flushing --------------------------------------------------------------

  /** None of the events logged since the last flush asked for one, and they
      are fewer than 64. */
  ghost predicate NoneWaits(events: seq<Pending>, unflushed: nat) {
    && unflushed <= |events| && unflushed < 64
    && forall i :: |events| - unflushed <= i < |events| ==> !events[i].flush
  }

  ghost predicate NoneCritical(w: Writer) {
    w.parts != [] && NoneWaits(Events(Records(w.parts)), w.unflushed)
  }

  lemma NumberWaits(w: Writer, body: Body, write: Write)
    requires NoneCritical(w) && !body.Event?
    ensures NoneCritical(Number(w, body, write)) && Number(w, body, write).unflushed == w.unflushed
  {
    var record := Record(w.lastSequence + 1, body);
    AppendLogs(w.(lastSequence := w.lastSequence + 1), record, write);
    LogGrows(Records(w.parts), record);
    assert Events(Records(w.parts)) + [] == Events(Records(w.parts));
  }

  lemma EventLogged(w: Writer, pending: Pending, write: Write)
    requires w.parts != []
    ensures Events(Records(Number(w, Event(pending), write).parts)) ==
            Events(Records(w.parts)) + if write.ok then [pending] else []
  {
    var record := Record(w.lastSequence + 1, Event(pending));
    AppendLogs(w.(lastSequence := w.lastSequence + 1), record, write);
    LogGrows(Records(w.parts), record);
    assert Events(Records(w.parts)) + [] == Events(Records(w.parts));
  }

  lemma LostEventWaits(w: Writer, pending: Pending, write: Write)
    requires NoneCritical(w) && !write.ok
    ensures NoneCritical(Number(w, Event(pending), write))
  {
    EventLogged(w, pending, write);
    assert Events(Records(w.parts)) + [] == Events(Records(w.parts));
  }

  lemma WaitsOn(w: Writer, after: Writer, pending: Pending)
    requires NoneCritical(w) && after.parts != [] && !pending.flush
    requires Events(Records(after.parts)) == Events(Records(w.parts)) + [pending]
    requires after.unflushed == w.unflushed + 1 < 64
    ensures NoneCritical(after)
  {
  }

  lemma CurrentWaits(w: Writer, pending: Pending, step: Step)
    requires step.Receive? && NoneCritical(w)
    ensures NoneCritical(AppendToCurrent(w, pending, step))
  {
    var written := Number(w, Event(pending), step.write);
    EventLogged(w, pending, step.write);
    if !step.write.ok {
      LostEventWaits(w, pending, step.write);
      NumberWaits(written, Finish, step.finish);
    } else if AppendToCurrent(w, pending, step).unflushed != 0 {
      WaitsOn(w, AppendToCurrent(w, pending, step), pending);
    }
  }

  lemma EventWaits(w: Writer, pending: Pending, step: Step)
    requires step.Receive? && NoneCritical(w)
    ensures NoneCritical(WriteEvent(w, pending, step))
  {
    RotationLogsNothing(w.parts);
    if !MustRotate(w, step.aged) {
      CurrentWaits(w, pending, step);
    } else if step.rotation.Rotates? {
      CurrentWaits(Rotate(w), pending, step);
    } else {
      NumberWaits(Forfeit(w), Finish, step.finish);
    }
  }

  lemma StepWaits(s: Session, step: Step)
    requires NoneCritical(s.writer)
    ensures NoneCritical(Next(s, step).writer)
  {
    match step
    case Receive(_, _, _, _, _) =>
      if s.writer.running && s.queue != [] {
        EventWaits(s.writer, s.queue[0], step);
      }
    case TimeOut(write) => NumberWaits(s.writer, Dropped(s.dropped), write);
    case Disconnect(write, finish) =>
      NumberWaits(s.writer, Dropped(s.dropped), write);
      NumberWaits(AppendDropped(s.writer, s.dropped, write), Finish, finish);
    case _ =>
  }

  /** Fewer than 64 events ever wait for a flush, and none that asked for
      one. */
  lemma {:induction false} CriticalEventsNeverWait(steps: seq<Step>)
    ensures NoneCritical(Run(steps).writer)
  {
    if steps == [] {
      EmptyLog();
    } else {
      CriticalEventsNeverWait(steps[..|steps| - 1]);
      StepWaits(Run(steps[..|steps| - 1]), steps[|steps| - 1]);
    }
  }

  /** And no event is flushed early: after one that is logged, nothing waits
      exactly if it asked for a flush, a flush was due, or 63 others waited. */
  lemma FlushesExactly(steps: seq<Step>, step: Step)
    requires Receives(Run(steps), step) && step.write.ok
    requires PartIsOver(steps, step.aged) ==> step.rotation.Rotates?
    ensures var before, after := Run(steps).writer, Run(steps + [step]).writer;
            after.unflushed ==
            if Run(steps).queue[0].flush || step.flushDue || before.unflushed == 63 then 0 else before.unflushed + 1
  {
    RunCounts(steps);
    CriticalEventsNeverWait(steps);
    Then(steps, step);
  }

  // -- dropping --------------------------------------------------------------

  /** Before a fault an attempt is dropped exactly when 2048 events accepted
      before it are still to be logged; otherwise it is accepted. */
  lemma DropsExactlyWhenFull(steps: seq<Step>, pending: Pending)
    requires AllFaultless(steps) && Run(steps).open
    ensures var s, after := Run(steps), Run(steps + [Enqueue(pending)]);
            var behind := |s.accepted| - |Events(Log(s))|;
            && 0 <= behind <= 2048
            && after.accepted == s.accepted + (if behind < 2048 then [pending] else [])
            && after.dropped == s.dropped + (if behind < 2048 then 0 else 1)
  {
    Then(steps, Enqueue(pending));
    RunConserves(steps);
    var s := Run(steps);
    assert |s.accepted| == |Events(Log(s))| + |s.queue|;
  }
}
