/**
  The session recorder: a producer that never waits, a bounded queue, and a
  writer that numbers records, rotates files and keeps a crash tail.

  The two threads share only the queue, the drop counter and the sender, so a
  run is a sequence of steps, each one access to those by one side. File
  faults and elapsed times are inputs of the writer's steps.
*/
module Recorder {

  const QUEUE_CAPACITY: nat := 2048
  const CRASH_TAIL_CAPACITY: nat := 256
  const WRITER_BATCH_EVENTS: nat := 64
  const MAX_SESSION_BYTES: nat := 8 * 1024 * 1024

  datatype Pending = Pending(event: nat, flush: bool)

  datatype Body = Event(pending: Pending) | Dropped(count: nat) | Finish

  datatype Record = Record(sequence: nat, body: Body)

  /** One attempt to write a record: its encoded size, newline included, and
      whether the file took it. */
  datatype Write = Write(size: nat, ok: bool)

  datatype Rotation = Rotates | FlushFails | OpenFails

  /** The writer's own state. `parts` are the files of the session in order;
      `failed` are the numbers given to records no file took. */
  datatype Writer = Writer(
    parts: seq<seq<Record>>,
    bytesWritten: nat,
    unflushed: nat,
    lastSequence: nat,
    tail: seq<Record>,
    failed: seq<nat>,
    running: bool)

  /** The two sides together. `accepted` and `attempts` only record history. */
  datatype Session = Session(
    queue: seq<Pending>,
    dropped: nat,
    open: bool,
    accepted: seq<Pending>,
    attempts: nat,
    writer: Writer)

  const EMPTY_WRITER := Writer([[]], 0, 0, 0, [], [], true)
  const NEW_SESSION := Session([], 0, true, [], 0, EMPTY_WRITER)

  /** One step of either side. */
  datatype Step =
    | Enqueue(pending: Pending)
    | Receive(aged: bool, rotation: Rotation, write: Write, flushDue: bool, finish: Write)
    | TimeOut(write: Write)
    | CloseSender
    | Disconnect(write: Write, finish: Write)

  // -- the writer ------------------------------------------------------------

  function Remember(tail: seq<Record>, record: Record): seq<Record> {
    (if |tail| == CRASH_TAIL_CAPACITY then tail[1..] else tail) + [record]
  }

  /** Appends to the current file and the crash tail, or fails with nothing
      appended. */
  function Append(w: Writer, record: Record, write: Write): Writer
    requires w.parts != []
  {
    if !write.ok then w.(failed := w.failed + [record.sequence])
    else
      var last := |w.parts| - 1;
      w.(parts := w.parts[last := w.parts[last] + [record]],
         bytesWritten := w.bytesWritten + write.size,
         tail := Remember(w.tail, record))
  }

  /** Numbers a record and appends it. */
  function Number(w: Writer, body: Body, write: Write): Writer
    requires w.parts != []
  {
    Append(w.(lastSequence := w.lastSequence + 1), Record(w.lastSequence + 1, body), write)
  }

  function AppendDropped(w: Writer, dropped: nat, write: Write): Writer
    requires w.parts != []
  {
    if dropped == 0 then w else Number(w, Dropped(dropped), write)
  }

  predicate MustRotate(w: Writer, aged: bool) {
    w.bytesWritten >= MAX_SESSION_BYTES || aged
  }

  /** The closing record, written whatever ended the loop. */
  function Close(w: Writer, finish: Write): Writer
    requires w.parts != []
  {
    Number(w, Finish, finish).(running := false)
  }

  /** An event's record in the current file. */
  function AppendToCurrent(w: Writer, pending: Pending, step: Step): Writer
    requires w.parts != [] && step.Receive?
  {
    var written := Number(w, Event(pending), step.write);
    if !step.write.ok then Close(written, step.finish)
    else if pending.flush || w.unflushed + 1 >= WRITER_BATCH_EVENTS || step.flushDue then written.(unflushed := 0)
    else written.(unflushed := w.unflushed + 1)
  }

  function Rotate(w: Writer): Writer {
    w.(parts := w.parts + [[]], bytesWritten := 0)
  }

  /** A number given out and lost with the file it was for. */
  function Forfeit(w: Writer): Writer {
    w.(lastSequence := w.lastSequence + 1, failed := w.failed + [w.lastSequence + 1])
  }

  /** One event taken off the queue. The number is spent before the file is
      changed, so a failed rotation loses it. */
  function WriteEvent(w: Writer, pending: Pending, step: Step): Writer
    requires w.parts != [] && step.Receive?
  {
    if !MustRotate(w, step.aged) then AppendToCurrent(w, pending, step)
    else if step.rotation.Rotates? then AppendToCurrent(Rotate(w), pending, step)
    else Close(Forfeit(w), step.finish)
  }

  // -- a run -----------------------------------------------------------------

  /** A step that cannot happen now leaves the session as it is. */
  function Next(s: Session, step: Step): Session
    requires s.writer.parts != []
  {
    match step
    case Enqueue(pending) =>
      if !s.open then s
      else if !s.writer.running then s.(attempts := s.attempts + 1)
      else if |s.queue| == QUEUE_CAPACITY then s.(attempts := s.attempts + 1, dropped := s.dropped + 1)
      else s.(attempts := s.attempts + 1, queue := s.queue + [pending], accepted := s.accepted + [pending])
    case Receive(_, _, _, _, _) =>
      if !s.writer.running || s.queue == [] then s
      else s.(queue := s.queue[1..], writer := WriteEvent(s.writer, s.queue[0], step))
    case TimeOut(write) =>
      if !s.writer.running || (!s.open && s.queue == []) then s
      else s.(dropped := 0, writer := AppendDropped(s.writer, s.dropped, write).(unflushed := 0))
    case CloseSender => s.(open := false)
    case Disconnect(write, finish) =>
      if !s.writer.running || s.open || s.queue != [] then s
      else s.(dropped := 0, writer := Close(AppendDropped(s.writer, s.dropped, write), finish))
  }

  function Run(steps: seq<Step>): (s: Session)
    ensures s.writer.parts != []
  {
    if steps == [] then NEW_SESSION else Next(Run(steps[..|steps| - 1]), steps[|steps| - 1])
  }

  predicate Faultless(step: Step) {
    match step
    case Receive(_, rotation, write, _, finish) => rotation.Rotates? && write.ok && finish.ok
    case TimeOut(write) => write.ok
    case Disconnect(write, finish) => write.ok && finish.ok
    case _ => true
  }

  ghost predicate AllFaultless(steps: seq<Step>) {
    forall i :: 0 <= i < |steps| ==> Faultless(steps[i])
  }

  // -- carried out -----------------------------------------------------------

  /** The recorder with its writer's locals beside the shared queue. */
  class DevelopmentRecorder {
    var queue: seq<Pending>
    var dropped: nat
    var open: bool
    ghost var accepted: seq<Pending>
    ghost var attempts: nat

    var parts: seq<seq<Record>>
    var bytesWritten: nat
    var unflushed: nat
    var lastSequence: nat
    var tail: seq<Record>
    ghost var failed: seq<nat>
    var running: bool

    ghost function WriterState(): Writer
      reads this
    {
      Writer(parts, bytesWritten, unflushed, lastSequence, tail, failed, running)
    }

    ghost function State(): Session
      reads this
    {
      Session(queue, dropped, open, accepted, attempts, WriterState())
    }

    constructor ()
      ensures State() == NEW_SESSION
    {
      queue, dropped, open, accepted, attempts := [], 0, true, [], 0;
      parts, bytesWritten, unflushed, lastSequence, tail, failed, running := [[]], 0, 0, 0, [], [], true;
    }

    /** Never waits: a full queue only counts the event as dropped. */
    method TryEnqueue(pending: Pending)
      requires parts != []
      modifies this`queue, this`dropped, this`accepted, this`attempts
      ensures State() == Next(old(State()), Enqueue(pending))
    {
      if !open {
        return;
      }
      attempts := attempts + 1;
      if running {
        if |queue| == QUEUE_CAPACITY {
          dropped := dropped + 1;
        } else {
          queue := queue + [pending];
          accepted := accepted + [pending];
        }
      }
    }

    /** Appends one record; says whether the file took it. */
    method AppendRecord(record: Record, write: Write) returns (ok: bool)
      requires parts != []
      modifies this`parts, this`bytesWritten, this`tail, this`failed
      ensures WriterState() == Append(old(WriterState()), record, write) && ok == write.ok
    {
      if !write.ok {
        failed := failed + [record.sequence];
        return false;
      }
      parts := parts[|parts| - 1 := parts[|parts| - 1] + [record]];
      bytesWritten := bytesWritten + write.size;
      if |tail| == CRASH_TAIL_CAPACITY {
        tail := tail[1..];
      }
      tail := tail + [record];
      return true;
    }

    /** Reports and clears the drop counter, if anything was dropped. */
    method AppendDroppedRecord(write: Write)
      requires parts != []
      modifies this`dropped, this`lastSequence, this`parts, this`bytesWritten, this`tail, this`failed
      ensures dropped == 0
      ensures WriterState() == AppendDropped(old(WriterState()), old(dropped), write)
    {
      var count := dropped;
      dropped := 0;
      if count == 0 {
        return;
      }
      lastSequence := lastSequence + 1;
      var ok := AppendRecord(Record(lastSequence, Dropped(count)), write);
    }

    /** The record that ends every session. */
    method AppendFinish(write: Write)
      requires parts != []
      modifies this`lastSequence, this`parts, this`bytesWritten, this`tail, this`failed, this`running
      ensures WriterState() == Close(old(WriterState()), write)
    {
      lastSequence := lastSequence + 1;
      var ok := AppendRecord(Record(lastSequence, Finish), write);
      running := false;
    }

    /** Appends an event's record and decides whether the batch is flushed. */
    method AppendEvent(pending: Pending, step: Step)
      requires step.Receive? && parts != []
      modifies this`parts, this`bytesWritten, this`unflushed, this`lastSequence, this`tail, this`failed, this`running
      ensures WriterState() == AppendToCurrent(old(WriterState()), pending, step)
    {
      lastSequence := lastSequence + 1;
      var ok := AppendRecord(Record(lastSequence, Event(pending)), step.write);
      if !ok {
        AppendFinish(step.finish);
        return;
      }
      unflushed := unflushed + 1;
      if pending.flush || unflushed >= WRITER_BATCH_EVENTS || step.flushDue {
        unflushed := 0;
      }
    }

    /** Takes one event off the queue, rotating the file first when it is
        full or old. */
    method ReceiveEvent(step: Step)
      requires step.Receive? && running && queue != [] && parts != []
      modifies this`queue, this`parts, this`bytesWritten, this`unflushed, this`lastSequence, this`tail, this`failed,
               this`running
      ensures State() == Next(old(State()), step)
    {
      var event := queue[0];
      queue := queue[1..];
      if bytesWritten >= MAX_SESSION_BYTES || step.aged {
        if !step.rotation.Rotates? {
          lastSequence := lastSequence + 1;
          failed := failed + [lastSequence];
          AppendFinish(step.finish);
          return;
        }
        parts := parts + [[]];
        bytesWritten := 0;
      }
      AppendEvent(event, step);
    }

    /** Carries out one step of either side. */
    method Act(step: Step)
      requires parts != []
      modifies this
      ensures State() == Next(old(State()), step)
    {
      match step {
        case Enqueue(pending) => TryEnqueue(pending);
        case Receive(_, _, _, _, _) =>
          if running && queue != [] {
            ReceiveEvent(step);
          }
        case TimeOut(write) =>
          if running && (open || queue != []) {
            AppendDroppedRecord(write);
            unflushed := 0;
          }
        case CloseSender => open := false;
        case Disconnect(write, finish) =>
          if running && !open && queue == [] {
            AppendDroppedRecord(write);
            AppendFinish(finish);
          }
      }
    }
  }

  /** A whole session under one interleaving of the two sides. */
  method RecordSession(steps: seq<Step>) returns (recorder: DevelopmentRecorder)
    ensures fresh(recorder) && recorder.State() == Run(steps)
  {
    recorder := new DevelopmentRecorder();
    for i := 0 to |steps|
      invariant fresh(recorder) && recorder.State() == Run(steps[..i])
    {
      assert steps[..i + 1][..i] == steps[..i];
      recorder.Act(steps[i]);
    }
    assert steps[..|steps|] == steps;
  }
}
