/**
  What every interleaving of producer and writer keeps: nothing accepted is
  lost, nothing dropped goes unreported, numbers are spent once each, and the
  crash tail is the end of the log.
*/
module RecorderProperties {
  import opened Recorder

  function Records(parts: seq<seq<Record>>): seq<Record> {
    if parts == [] then [] else Records(parts[..|parts| - 1]) + parts[|parts| - 1]
  }

  function Log(s: Session): seq<Record> {
    Records(s.writer.parts)
  }

  function Events(records: seq<Record>): seq<Pending> {
    if records == [] then []
    else
      var last := records[|records| - 1];
      Events(records[..|records| - 1]) + (if last.body.Event? then [last.body.pending] else [])
  }

  function Reported(records: seq<Record>): nat {
    if records == [] then 0
    else
      var last := records[|records| - 1];
      Reported(records[..|records| - 1]) + (if last.body.Dropped? then last.body.count else 0)
  }

  function Last(records: seq<Record>, n: nat): seq<Record> {
    if |records| <= n then records else records[|records| - n..]
  }

  // -- appending -------------------------------------------------------------

  lemma AppendLogs(w: Writer, record: Record, write: Write)
    requires w.parts != []
    ensures Records(Append(w, record, write).parts) == Records(w.parts) + if write.ok then [record] else []
  {
    var last := |w.parts| - 1;
    if write.ok {
      assert Append(w, record, write).parts[..last] == w.parts[..last];
      assert Records(w.parts[..last]) + (w.parts[last] + [record]) ==
             Records(w.parts[..last]) + w.parts[last] + [record];
    } else {
      assert Records(w.parts) + [] == Records(w.parts);
    }
  }

  lemma RotationLogsNothing(parts: seq<seq<Record>>)
    ensures Records(parts + [[]]) == Records(parts)
  {
    assert (parts + [[]])[..|parts|] == parts;
  }

  lemma EmptyLog()
    ensures Records(EMPTY_WRITER.parts) == []
  {
    assert EMPTY_WRITER.parts[..0] == [];
  }

  lemma LogGrows(records: seq<Record>, record: Record)
    ensures Events(records + [record]) == Events(records) + if record.body.Event? then [record.body.pending] else []
    ensures Reported(records + [record]) == Reported(records) + if record.body.Dropped? then record.body.count else 0
  {
    assert (records + [record])[..|records|] == records;
  }

  // -- the crash tail --------------------------------------------------------

  ghost predicate TailIsEnd(w: Writer) {
    w.tail == Last(Records(w.parts), CRASH_TAIL_CAPACITY)
  }

  lemma AppendKeepsTail(w: Writer, record: Record, write: Write)
    requires w.parts != [] && TailIsEnd(w)
    ensures TailIsEnd(Append(w, record, write))
  {
    AppendLogs(w, record, write);
    var before := Records(w.parts);
    if write.ok && |before| >= CRASH_TAIL_CAPACITY {
      var from := |before| - CRASH_TAIL_CAPACITY;
      assert w.tail == before[from..];
      assert (before + [record])[from + 1..] == before[from + 1..] + [record];
      assert before[from..][1..] == before[from + 1..];
    }
  }

  lemma NumberKeepsTail(w: Writer, body: Body, write: Write)
    requires w.parts != [] && TailIsEnd(w)
    ensures TailIsEnd(Number(w, body, write))
  {
    AppendKeepsTail(w.(lastSequence := w.lastSequence + 1), Record(w.lastSequence + 1, body), write);
  }

  lemma CurrentKeepsTail(w: Writer, pending: Pending, step: Step)
    requires w.parts != [] && step.Receive? && TailIsEnd(w)
    ensures TailIsEnd(AppendToCurrent(w, pending, step))
  {
    NumberKeepsTail(w, Event(pending), step.write);
    NumberKeepsTail(Number(w, Event(pending), step.write), Finish, step.finish);
  }

  lemma EventKeepsTail(w: Writer, pending: Pending, step: Step)
    requires w.parts != [] && step.Receive? && TailIsEnd(w)
    ensures TailIsEnd(WriteEvent(w, pending, step))
  {
    RotationLogsNothing(w.parts);
    CurrentKeepsTail(w, pending, step);
    CurrentKeepsTail(Rotate(w), pending, step);
    NumberKeepsTail(Forfeit(w), Finish, step.finish);
  }

  lemma DroppedKeepsTail(w: Writer, dropped: nat, write: Write)
    requires w.parts != [] && TailIsEnd(w)
    ensures TailIsEnd(AppendDropped(w, dropped, write))
  {
    NumberKeepsTail(w, Dropped(dropped), write);
  }

  /** At every moment of every session, faults included, the crash tail is
      the last 256 records of the log, or all of it. */
  lemma {:induction false} CrashTailIsEndOfLog(steps: seq<Step>)
    ensures Run(steps).writer.tail == Last(Log(Run(steps)), CRASH_TAIL_CAPACITY)
  {
    if steps == [] {
      EmptyLog();
    } else {
      CrashTailIsEndOfLog(steps[..|steps| - 1]);
      var s := Run(steps[..|steps| - 1]);
      match steps[|steps| - 1] {
        case Receive(_, _, _, _, _) =>
          if s.queue != [] {
            EventKeepsTail(s.writer, s.queue[0], steps[|steps| - 1]);
          }
        case TimeOut(write) => DroppedKeepsTail(s.writer, s.dropped, write);
        case Disconnect(write, finish) =>
          DroppedKeepsTail(s.writer, s.dropped, write);
          NumberKeepsTail(AppendDropped(s.writer, s.dropped, write), Finish, finish);
        case _ =>
      }
    }
  }

  // -- numbers ---------------------------------------------------------------

  ghost predicate Rising(records: seq<Record>, top: nat) {
    && (forall i, j :: 0 <= i < j < |records| ==> records[i].sequence < records[j].sequence)
    && (forall i :: 0 <= i < |records| ==> 1 <= records[i].sequence <= top)
  }

  ghost predicate Logged(records: seq<Record>, n: nat) {
    exists i :: 0 <= i < |records| && records[i].sequence == n
  }

  /** Numbers rise along the log, and every number given out is either on
      exactly one record or was spent on one that no file took. */
  ghost predicate NumbersSpentOnce(w: Writer) {
    var records := Records(w.parts);
    && Rising(records, w.lastSequence)
    && (forall n: nat :: 1 <= n <= w.lastSequence ==> (Logged(records, n) <==> n !in w.failed))
    && (forall n :: n in w.failed ==> 1 <= n <= w.lastSequence)
    && |records| + |w.failed| == w.lastSequence
  }

  lemma LoggedAfter(records: seq<Record>, last: Record, n: nat)
    ensures Logged(records + [last], n) <==> Logged(records, n) || last.sequence == n
  {
    var after := records + [last];
    assert after[|records|] == last;
    if Logged(records, n) {
      var i :| 0 <= i < |records| && records[i].sequence == n;
      assert after[i].sequence == n;
    }
  }

  lemma AppendRises(records: seq<Record>, n: nat, last: Record)
    requires Rising(records, n) && last.sequence == n + 1
    ensures Rising(records + [last], n + 1) && !Logged(records, n + 1)
  {
  }

  lemma AppendSpends(w: Writer, body: Body, write: Write)
    requires w.parts != [] && NumbersSpentOnce(w)
    ensures NumbersSpentOnce(Number(w, body, write))
  {
    var n := w.lastSequence + 1;
    var records, s := Records(w.parts), Number(w, body, write);
    AppendLogs(w.(lastSequence := n), Record(n, body), write);
    AppendRises(records, w.lastSequence, Record(n, body));
    forall k: nat | write.ok && 1 <= k <= n ensures Logged(records + [Record(n, body)], k) <==> k !in w.failed {
      LoggedAfter(records, Record(n, body), k);
    }
    assert Records(s.parts) == if write.ok then records + [Record(n, body)] else records;
    assert s.failed == if write.ok then w.failed else w.failed + [n];
  }

  lemma CurrentSpends(w: Writer, pending: Pending, step: Step)
    requires w.parts != [] && step.Receive? && NumbersSpentOnce(w)
    ensures NumbersSpentOnce(AppendToCurrent(w, pending, step))
  {
    AppendSpends(w, Event(pending), step.write);
    AppendSpends(Number(w, Event(pending), step.write), Finish, step.finish);
  }

  lemma ForfeitSpends(w: Writer)
    requires NumbersSpentOnce(w)
    ensures NumbersSpentOnce(Forfeit(w))
  {
    assert !Logged(Records(w.parts), w.lastSequence + 1);
  }

  lemma RotateSpends(w: Writer)
    requires NumbersSpentOnce(w)
    ensures NumbersSpentOnce(Rotate(w))
  {
    RotationLogsNothing(w.parts);
  }

  lemma EventSpends(w: Writer, pending: Pending, step: Step)
    requires w.parts != [] && step.Receive? && NumbersSpentOnce(w)
    ensures NumbersSpentOnce(WriteEvent(w, pending, step))
  {
    if !MustRotate(w, step.aged) {
      CurrentSpends(w, pending, step);
    } else if step.rotation.Rotates? {
      RotateSpends(w);
      CurrentSpends(Rotate(w), pending, step);
    } else {
      ForfeitSpends(w);
      AppendSpends(Forfeit(w), Finish, step.finish);
    }
  }

  lemma DroppedSpends(w: Writer, dropped: nat, write: Write)
    requires w.parts != [] && NumbersSpentOnce(w)
    ensures NumbersSpentOnce(AppendDropped(w, dropped, write))
  {
    AppendSpends(w, Dropped(dropped), write);
  }

  /** Whatever fails, sequence numbers are given out in order and once each. */
  lemma {:induction false} SequenceNumbersSpentOnce(steps: seq<Step>)
    ensures NumbersSpentOnce(Run(steps).writer)
  {
    if steps == [] {
      EmptyLog();
    } else {
      SequenceNumbersSpentOnce(steps[..|steps| - 1]);
      var s := Run(steps[..|steps| - 1]);
      match steps[|steps| - 1] {
        case Receive(_, _, _, _, _) =>
          if s.queue != [] {
            EventSpends(s.writer, s.queue[0], steps[|steps| - 1]);
          }
        case TimeOut(write) => DroppedSpends(s.writer, s.dropped, write);
        case Disconnect(write, finish) =>
          DroppedSpends(s.writer, s.dropped, write);
          AppendSpends(AppendDropped(s.writer, s.dropped, write), Finish, finish);
        case _ =>
      }
    }
  }

  lemma {:induction false} RisingWithoutGaps(records: seq<Record>, n: nat)
    requires Rising(records, n) && |records| == n
    ensures forall i :: 0 <= i < n ==> records[i].sequence == i + 1
    decreases n
  {
    if n > 0 {
      var init := records[..n - 1];
      if records[n - 1].sequence < n {
        Crowded(records, n - 1);
      }
      RisingWithoutGaps(init, n - 1);
      forall i | 0 <= i < n ensures records[i].sequence == i + 1 {
        assert i < n - 1 ==> records[i] == init[i];
      }
    }
  }

  /** Rising numbers need at least as much room as there are of them. */
  lemma {:induction false} Crowded(records: seq<Record>, top: nat)
    requires Rising(records, top)
    ensures |records| <= top
    decreases |records|
  {
    if records != [] {
      var n := |records| - 1;
      forall i | 0 <= i < n ensures records[..n][i].sequence <= records[n].sequence - 1 {
      }
      Crowded(records[..n], records[n].sequence - 1);
    }
  }

  ghost predicate NumberedFromOne(log: seq<Record>) {
    forall i :: 0 <= i < |log| ==> log[i].sequence == i + 1
  }

  ghost predicate FailedOnlyAtEnd(log: seq<Record>, failed: seq<nat>) {
    forall i, n :: 0 <= i < |log| && n in failed ==> log[i].sequence < n
  }

  lemma LateFailuresLeaveNoGap(w: Writer)
    requires NumbersSpentOnce(w) && FailedOnlyAtEnd(Records(w.parts), w.failed)
    ensures NumberedFromOne(Records(w.parts))
  {
    var log := Records(w.parts);
    if log != [] {
      var top := log[|log| - 1].sequence;
      assert Rising(log, top);
      Crowded(log, top);
      assert forall n: nat :: 1 <= n <= top ==> Logged(log, n);
      if |log| < top {
        FreeNumber(log, top);
      }
      RisingWithoutGaps(log, |log|);
    }
  }

  lemma NoGapMeansLateFailures(w: Writer)
    requires NumbersSpentOnce(w) && NumberedFromOne(Records(w.parts))
    ensures FailedOnlyAtEnd(Records(w.parts), w.failed)
  {
    var log := Records(w.parts);
    forall n: nat | 1 <= n <= |log| ensures Logged(log, n) {
      assert log[n - 1].sequence == n;
    }
  }

  /** A log without a gap is one whose lost numbers are all at its end. */
  lemma GapsAreLostNumbers(steps: seq<Step>)
    ensures NumberedFromOne(Log(Run(steps))) <==> FailedOnlyAtEnd(Log(Run(steps)), Run(steps).writer.failed)
  {
    SequenceNumbersSpentOnce(steps);
    var w := Run(steps).writer;
    if FailedOnlyAtEnd(Records(w.parts), w.failed) {
      LateFailuresLeaveNoGap(w);
    }
    if NumberedFromOne(Records(w.parts)) {
      NoGapMeansLateFailures(w);
    }
  }

  /** The numbers a step gives out, in order, and whether each reaches a file:
      an event's own and, if it fails or its rotation does, the closing
      record's; a drop report's, if anything was dropped; the closing record's
      at the end. */
  function Spent(s: Session, step: Step): seq<bool> {
    match step
    case Receive(aged, rotation, write, _, finish) =>
      if !s.writer.running || s.queue == [] then []
      else if MustRotate(s.writer, aged) && !rotation.Rotates? then [false, finish.ok]
      else if write.ok then [true]
      else [false, finish.ok]
    case TimeOut(write) =>
      if !s.writer.running || (!s.open && s.queue == []) || s.dropped == 0 then [] else [write.ok]
    case Disconnect(write, finish) =>
      if !s.writer.running || s.open || s.queue != [] then []
      else (if s.dropped == 0 then [] else [write.ok]) + [finish.ok]
    case _ => []
  }

  /** The fate of every number given out, in order, read off the steps. */
  function Fates(steps: seq<Step>): seq<bool> {
    if steps == [] then []
    else Fates(steps[..|steps| - 1]) + Spent(Run(steps[..|steps| - 1]), steps[|steps| - 1])
  }

  /** The records of the log carry exactly the numbers that reached a file. */
  ghost predicate LogsFates(w: Writer, fates: seq<bool>) {
    && w.lastSequence == |fates|
    && Sequences(Records(w.parts)) == Reached(fates)
  }

  function Sequences(records: seq<Record>): (r: seq<nat>)
    ensures |r| == |records| && forall i :: 0 <= i < |r| ==> r[i] == records[i].sequence
  {
    seq(|records|, i requires 0 <= i < |records| => records[i].sequence)
  }

  function Reached(fates: seq<bool>): seq<nat> {
    if fates == [] then []
    else Reached(fates[..|fates| - 1]) + (if fates[|fates| - 1] then [|fates|] else [])
  }

  lemma AppendsFate(w: Writer, fates: seq<bool>, body: Body, write: Write)
    requires w.parts != [] && LogsFates(w, fates)
    ensures LogsFates(Number(w, body, write), fates + [write.ok])
  {
    var n := w.lastSequence + 1;
    AppendLogs(w.(lastSequence := n), Record(n, body), write);
    assert (fates + [write.ok])[..|fates|] == fates;
    assert Sequences(Records(w.parts) + [Record(n, body)]) == Sequences(Records(w.parts)) + [n];
  }

  lemma ForfeitsFate(w: Writer, fates: seq<bool>)
    requires LogsFates(w, fates)
    ensures LogsFates(Forfeit(w), fates + [false])
  {
    assert (fates + [false])[..|fates|] == fates;
  }

  lemma ClosesFates(w: Writer, fates: seq<bool>, write: Write)
    requires w.parts != [] && LogsFates(w, fates)
    ensures LogsFates(Close(w, write), fates + [write.ok])
  {
    AppendsFate(w, fates, Finish, write);
  }

  lemma CurrentFates(w: Writer, fates: seq<bool>, pending: Pending, step: Step)
    requires w.parts != [] && step.Receive? && LogsFates(w, fates)
    ensures LogsFates(AppendToCurrent(w, pending, step),
                      fates + if step.write.ok then [true] else [false, step.finish.ok])
  {
    AppendsFate(w, fates, Event(pending), step.write);
    if !step.write.ok {
      ClosesFates(Number(w, Event(pending), step.write), fates + [false], step.finish);
      assert fates + [false] + [step.finish.ok] == fates + [false, step.finish.ok];
    }
  }

  lemma EventFates(s: Session, fates: seq<bool>, step: Step)
    requires s.writer.parts != [] && step.Receive? && LogsFates(s.writer, fates) && s.writer.running && s.queue != []
    ensures LogsFates(Next(s, step).writer, fates + Spent(s, step))
  {
    var w := s.writer;
    if MustRotate(w, step.aged) {
      if step.rotation.Rotates? {
        RotationLogsNothing(w.parts);
        CurrentFates(Rotate(w), fates, s.queue[0], step);
      } else {
        ForfeitsFate(w, fates);
        ClosesFates(Forfeit(w), fates + [false], step.finish);
        assert fates + [false] + [step.finish.ok] == fates + [false, step.finish.ok];
      }
    } else {
      CurrentFates(w, fates, s.queue[0], step);
    }
  }

  lemma ReportFates(w: Writer, fates: seq<bool>, dropped: nat, write: Write)
    requires w.parts != [] && LogsFates(w, fates)
    ensures LogsFates(AppendDropped(w, dropped, write), fates + if dropped == 0 then [] else [write.ok])
  {
    assert fates + [] == fates;
    if dropped != 0 {
      AppendsFate(w, fates, Dropped(dropped), write);
    }
  }

  lemma ClosingFates(s: Session, fates: seq<bool>, write: Write, finish: Write)
    requires s.writer.parts != [] && LogsFates(s.writer, fates)
    ensures LogsFates(Close(AppendDropped(s.writer, s.dropped, write), finish),
                      fates + ((if s.dropped == 0 then [] else [write.ok]) + [finish.ok]))
  {
    var reported := if s.dropped == 0 then [] else [write.ok];
    ReportFates(s.writer, fates, s.dropped, write);
    ClosesFates(AppendDropped(s.writer, s.dropped, write), fates + reported, finish);
    assert fates + reported + [finish.ok] == fates + (reported + [finish.ok]);
  }

  lemma StepFates(s: Session, fates: seq<bool>, step: Step)
    requires s.writer.parts != [] && LogsFates(s.writer, fates)
    ensures LogsFates(Next(s, step).writer, fates + Spent(s, step))
  {
    assert fates + [] == fates;
    match step
    case Receive(_, _, _, _, _) =>
      if s.writer.running && s.queue != [] {
        EventFates(s, fates, step);
      }
    case TimeOut(write) => ReportFates(s.writer, fates, s.dropped, write);
    case Disconnect(write, finish) => ClosingFates(s, fates, write, finish);
    case _ =>
  }

  /** The steps alone say which numbers the log carries. */
  lemma {:induction false} LogFollowsFates(steps: seq<Step>)
    ensures LogsFates(Run(steps).writer, Fates(steps))
  {
    if steps == [] {
      EmptyLog();
    } else {
      LogFollowsFates(steps[..|steps| - 1]);
      StepFates(Run(steps[..|steps| - 1]), Fates(steps[..|steps| - 1]), steps[|steps| - 1]);
    }
  }

  /** A number is lost and a later one is not. */
  ghost predicate LostBeforeReached(fates: seq<bool>) {
    exists i, j :: 0 <= i < j < |fates| && !fates[i] && fates[j]
  }

  lemma {:induction false} ReachedInRow(fates: seq<bool>)
    ensures |Reached(fates)| <= |fates|
    ensures |Reached(fates)| == |fates| <==> forall i :: 0 <= i < |fates| ==> fates[i]
    ensures (forall i :: 0 <= i < |Reached(fates)| ==> Reached(fates)[i] == i + 1) <==> !LostBeforeReached(fates)
  {
    if fates != [] {
      var init, last := fates[..|fates| - 1], fates[|fates| - 1];
      ReachedInRow(init);
      LostEarlier(fates);
      var r := Reached(fates);
      assert forall i :: 0 <= i < |Reached(init)| ==> r[i] == Reached(init)[i];
      if last {
        assert r[|r| - 1] == |fates|;
      }
    }
  }

  lemma LostEarlier(fates: seq<bool>)
    requires fates != []
    ensures var init, last := fates[..|fates| - 1], fates[|fates| - 1];
            LostBeforeReached(fates) <==> LostBeforeReached(init) || (last && exists i :: 0 <= i < |init| && !init[i])
  {
    var init, n := fates[..|fates| - 1], |fates| - 1;
    if LostBeforeReached(fates) {
      var i, j :| 0 <= i < j < |fates| && !fates[i] && fates[j];
      assert !init[i] && (j < n ==> init[j]);
    }
    if LostBeforeReached(init) {
      var i, j :| 0 <= i < j < |init| && !init[i] && init[j];
      assert !fates[i] && fates[j];
    }
    if i :| 0 <= i < |init| && !init[i] {
      assert !fates[i];
      assert fates[n] ==> LostBeforeReached(fates);
    }
  }

  function SpentAt(steps: seq<Step>, n: nat): seq<bool>
    requires n < |steps|
  {
    Spent(Run(steps[..n]), steps[n])
  }

  /** What each step spends. */
  function SpentBy(steps: seq<Step>): (spent: seq<seq<bool>>)
    ensures |spent| == |steps| && forall n :: 0 <= n < |steps| ==> spent[n] == SpentAt(steps, n)
  {
    seq(|steps|, n requires 0 <= n < |steps| => SpentAt(steps, n))
  }

  /** Step `m` loses a number before one that step `n` brings to a file. */
  ghost predicate LosesBefore(spent: seq<seq<bool>>, m: nat, n: nat)
    requires m <= n < |spent|
  {
    if m == n then LostBeforeReached(spent[n]) else false in spent[m] && true in spent[n]
  }

  /** Some step's write or rotation fails with a number spent on it, and a
      write of that step or a later one then reaches a file. */
  ghost predicate FailsThenWrites(spent: seq<seq<bool>>) {
    exists m: nat, n: nat :: m <= n < |spent| && LosesBefore(spent, m, n)
  }

  function Flat(spent: seq<seq<bool>>): seq<bool> {
    if spent == [] then [] else Flat(spent[..|spent| - 1]) + spent[|spent| - 1]
  }

  lemma LostAcross(left: seq<bool>, right: seq<bool>)
    ensures LostBeforeReached(left + right) <==>
            LostBeforeReached(left) || LostBeforeReached(right) || (false in left && true in right)
  {
    var all, n := left + right, |left|;
    if LostBeforeReached(all) {
      var i, j :| 0 <= i < j < |all| && !all[i] && all[j];
      if j < n {
        assert !left[i] && left[j];
      } else if n <= i {
        assert !right[i - n] && right[j - n];
      } else {
        assert left[i] == false && right[j - n] == true;
      }
    }
    if LostBeforeReached(left) {
      var i, j :| 0 <= i < j < |left| && !left[i] && left[j];
      assert !all[i] && all[j];
    }
    if LostBeforeReached(right) {
      var i, j :| 0 <= i < j < |right| && !right[i] && right[j];
      assert !all[n + i] && all[n + j];
    }
    if false in left && true in right {
      var i :| 0 <= i < |left| && left[i] == false;
      var j :| 0 <= j < |right| && right[j] == true;
      assert !all[i] && all[n + j];
    }
  }

  predicate LosesAt(spent: seq<seq<bool>>, m: nat)
    requires m < |spent|
  {
    false in spent[m]
  }

  lemma {:induction false} LostSomewhere(spent: seq<seq<bool>>)
    ensures false in Flat(spent) <==> exists m: nat :: m < |spent| && LosesAt(spent, m)
  {
    if spent != [] {
      var init, n := spent[..|spent| - 1], |spent| - 1;
      LostSomewhere(init);
      if m: nat :| m < |spent| && LosesAt(spent, m) {
        assert m < n ==> LosesAt(init, m);
      }
      if m: nat :| m < |init| && LosesAt(init, m) {
        assert LosesAt(spent, m);
      }
      assert false in spent[n] ==> LosesAt(spent, n);
    }
  }

  lemma {:induction false} LostByStep(spent: seq<seq<bool>>)
    ensures LostBeforeReached(Flat(spent)) <==> FailsThenWrites(spent)
  {
    if spent != [] {
      var init, n := spent[..|spent| - 1], |spent| - 1;
      LostByStep(init);
      LostSomewhere(init);
      LostAcross(Flat(init), spent[n]);
      if FailsThenWrites(spent) {
        var m: nat, k: nat :| m <= k < |spent| && LosesBefore(spent, m, k);
        assert k < n ==> LosesBefore(init, m, k);
        assert m < n ==> init[m] == spent[m];
        assert k == n && m < n ==> LosesAt(init, m);
      }
      if FailsThenWrites(init) {
        var m: nat, k: nat :| m <= k < |init| && LosesBefore(init, m, k);
        assert LosesBefore(spent, m, k);
      }
      if LostBeforeReached(spent[n]) {
        assert LosesBefore(spent, n, n);
      }
      if m: nat :| m < |init| && LosesAt(init, m) {
        assert true in spent[n] ==> LosesBefore(spent, m, n);
      }
    }
  }

  lemma {:induction false} FatesAreFlat(steps: seq<Step>)
    ensures Fates(steps) == Flat(SpentBy(steps))
  {
    if steps != [] {
      var init, n := steps[..|steps| - 1], |steps| - 1;
      FatesAreFlat(init);
      SpentByPrefix(steps);
    }
  }

  lemma SpentByPrefix(steps: seq<Step>)
    requires steps != []
    ensures SpentBy(steps)[..|steps| - 1] == SpentBy(steps[..|steps| - 1])
  {
    forall m | 0 <= m < |steps| - 1 ensures SpentAt(steps, m) == SpentAt(steps[..|steps| - 1], m) {
      assert steps[..m] == steps[..|steps| - 1][..m];
    }
  }

  /** The log is numbered 1, 2, 3 and on without a gap exactly when no step
      loses a number, to a failed write or rotation, before a write that
      reaches a file in that step or a later one. */
  lemma GapsAreFailures(steps: seq<Step>)
    ensures NumberedFromOne(Log(Run(steps))) <==> !FailsThenWrites(SpentBy(steps))
  {
    LogFollowsFates(steps);
    ReachedInRow(Fates(steps));
    FatesAreFlat(steps);
    LostByStep(SpentBy(steps));
    var log := Log(Run(steps));
    assert forall i :: 0 <= i < |log| ==> Sequences(log)[i] == log[i].sequence;
  }

  lemma Then(steps: seq<Step>, step: Step)
    ensures Run(steps + [step]) == Next(Run(steps), step)
  {
    var longer := steps + [step];
    assert longer[..|longer| - 1] == steps;
  }

  /** One event whose write fails, with the closing record written after it:
      the log starts at 2. */
  lemma FailedWriteLeavesAGap(pending: Pending, size: nat, due: bool) returns (steps: seq<Step>)
    ensures Log(Run(steps)) == [Record(2, Finish)]
    ensures FailsThenWrites(SpentBy(steps)) && !NumberedFromOne(Log(Run(steps)))
  {
    var write := Receive(false, Rotates, Write(size, false), due, Write(size, true));
    steps := [] + [Enqueue(pending)] + [write];
    Then([], Enqueue(pending));
    Then([] + [Enqueue(pending)], write);
    var lost := EMPTY_WRITER.(lastSequence := 1, failed := [1]);
    assert Number(EMPTY_WRITER, Event(pending), Write(size, false)) == lost;
    assert [] + [Record(2, Finish)] == [Record(2, Finish)];
    assert Run(steps).writer == Close(lost, Write(size, true));
    assert Records([[Record(2, Finish)]][..0]) == [];
    assert Log(Run(steps))[0].sequence == 2;
    GapsAreFailures(steps);
  }

  lemma InitRises(records: seq<Record>, top: nat)
    requires Rising(records, top) && records != [] && top > 0
    ensures Rising(records[..|records| - 1], top - 1)
  {
    var last := |records| - 1;
    forall i | 0 <= i < last ensures 1 <= records[i].sequence <= top - 1 {
      assert records[i].sequence < records[last].sequence;
    }
  }

  /** Fewer records than the last number leave some number unused. */
  lemma {:induction false} FreeNumber(records: seq<Record>, top: nat)
    requires Rising(records, top) && |records| < top
    ensures exists n: nat :: 1 <= n <= top && !Logged(records, n)
    decreases top
  {
    if !Logged(records, top) {
      assert 1 <= top && !Logged(records, top);
    } else {
      var i :| 0 <= i < |records| && records[i].sequence == top;
      var last := |records| - 1;
      var init := records[..last];
      InitRises(records, top);
      FreeNumber(init, top - 1);
      var n: nat :| 1 <= n <= top - 1 && !Logged(init, n);
      forall j | 0 <= j < |records| ensures records[j].sequence != n {
        assert j < last ==> records[j] == init[j];
      }
      assert 1 <= n <= top && !Logged(records, n);
    }
  }

  // -- conservation ----------------------------------------------------------

  /** With no fault, everything tried is an event in the log or the queue, or
      a drop reported or counted; order is the order of acceptance; numbers
      have no gap; and the queue keeps its bound. */
  ghost predicate Conserved(s: Session) {
    var log := Log(s);
    && s.attempts == |Events(log)| + |s.queue| + Reported(log) + s.dropped
    && Events(log) + s.queue == s.accepted
    && s.writer.failed == []
    && |s.queue| <= QUEUE_CAPACITY
    && (!s.writer.running ==> !s.open && s.queue == [] && s.dropped == 0)
  }

  lemma NumberLogs(w: Writer, body: Body, write: Write)
    requires w.parts != [] && write.ok
    ensures var log, after := Records(w.parts), Number(w, body, write);
            && Records(after.parts) == log + [Record(w.lastSequence + 1, body)]
            && Events(Records(after.parts)) == Events(log) + (if body.Event? then [body.pending] else [])
            && Reported(Records(after.parts)) == Reported(log) + (if body.Dropped? then body.count else 0)
            && after.failed == w.failed && after.running == w.running
  {
    var record := Record(w.lastSequence + 1, body);
    AppendLogs(w.(lastSequence := w.lastSequence + 1), record, write);
    LogGrows(Records(w.parts), record);
  }

  lemma WrittenEvent(s: Session, step: Step)
    requires s.writer.parts != [] && Conserved(s)
    requires step.Receive? && Faultless(step) && s.writer.running && s.queue != []
    ensures Conserved(Next(s, step))
  {
    var w := s.writer;
    RotationLogsNothing(w.parts);
    NumberLogs(w, Event(s.queue[0]), step.write);
    NumberLogs(Rotate(w), Event(s.queue[0]), step.write);
    assert Events(Log(s)) + s.queue == (Events(Log(s)) + [s.queue[0]]) + s.queue[1..];
  }

  lemma ReportedDrops(w: Writer, dropped: nat, write: Write)
    requires w.parts != [] && write.ok
    ensures var after := AppendDropped(w, dropped, write);
            && Events(Records(after.parts)) == Events(Records(w.parts))
            && Reported(Records(after.parts)) == Reported(Records(w.parts)) + dropped
            && after.failed == w.failed && after.running == w.running
  {
    if dropped != 0 {
      NumberLogs(w, Dropped(dropped), write);
    }
  }

  lemma Finished(w: Writer, finish: Write)
    requires w.parts != [] && finish.ok
    ensures var after := Close(w, finish);
            && Events(Records(after.parts)) == Events(Records(w.parts))
            && Reported(Records(after.parts)) == Reported(Records(w.parts))
            && after.failed == w.failed
            && Records(after.parts) != [] && Records(after.parts)[|Records(after.parts)| - 1].body == Finish
  {
    NumberLogs(w, Finish, finish);
  }

  lemma StepConserves(s: Session, step: Step)
    requires s.writer.parts != [] && Conserved(s) && Faultless(step)
    ensures Conserved(Next(s, step))
  {
    match step {
      case Enqueue(pending) =>
        assert Events(Log(s)) + (s.queue + [pending]) == (Events(Log(s)) + s.queue) + [pending];
      case Receive(_, _, _, _, _) =>
        if s.writer.running && s.queue != [] {
          WrittenEvent(s, step);
        }
      case TimeOut(write) =>
        ReportedDrops(s.writer, s.dropped, write);
      case CloseSender =>
      case Disconnect(write, finish) =>
        ReportedDrops(s.writer, s.dropped, write);
        Finished(AppendDropped(s.writer, s.dropped, write), finish);
    }
  }

  lemma {:induction false} RunConserves(steps: seq<Step>)
    requires AllFaultless(steps)
    ensures Conserved(Run(steps))
  {
    if steps == [] {
      EmptyLog();
    } else {
      RunConserves(steps[..|steps| - 1]);
      StepConserves(Run(steps[..|steps| - 1]), steps[|steps| - 1]);
    }
  }

  /** After an orderly shutdown, every attempt to record something is an event
      in the log or is counted in a drop report; the events are exactly those
      accepted, in order; and records are numbered 1, 2, 3 across all files. */
  lemma ShutdownAccountsForEverything(steps: seq<Step>)
    requires AllFaultless(steps) && !Run(steps).writer.running
    ensures var log := Log(Run(steps));
            && Run(steps).attempts == |Events(log)| + Reported(log)
            && Events(log) == Run(steps).accepted
            && NumberedFromOne(log)
  {
    RunConserves(steps);
    GapsAreLostNumbers(steps);
    var s := Run(steps);
    assert Events(Log(s)) + [] == Events(Log(s));
  }

  /** Without faults the same account balances before shutdown, counting what
      is still queued and what is still to be reported. */
  lemma RunningAccountBalances(steps: seq<Step>)
    requires AllFaultless(steps)
    ensures var s := Run(steps);
            && s.attempts == |Events(Log(s))| + |s.queue| + Reported(Log(s)) + s.dropped
            && Events(Log(s)) + s.queue == s.accepted
            && |s.queue| <= QUEUE_CAPACITY
            && NumberedFromOne(Log(s))
  {
    RunConserves(steps);
    GapsAreLostNumbers(steps);
  }
}
