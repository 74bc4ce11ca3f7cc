/**
 The bounded diagnostic writer as a state machine: one step is one locked region of a
 producer, of the worker or of shutdown. The class that runs the steps is in
 DiagnosticWriter.dfy.
 */
module DiagnosticModel {
  import opened Counting
  import opened Wrappers

  const CAPACITY: nat := 512
  const ERROR_RESERVE: nat := 64
  const MAX_PAYLOAD: nat := 16 * 1024 - 256

  datatype Record = Record(sequence: nat, important: bool, size: nat)

  /** The losses the worker read when it took its record. */
  datatype Losses = Losses(dropped: nat, critical: nat, failed: nat)

  datatype Stats = Stats(
    accepted: nat, written: nat, failed: nat, dropped: nat, criticalDropped: nat, peakQueued: nat)

  /** What the last written note said. */
  datatype Reported = Reported(dropped: nat, failed: nat)

  /** One call of the sink: whose record, whether it was written, what losses it reported. */
  datatype Line = Line(sequence: nat, written: bool, note: Option<Losses>)

  datatype Worker = Awake | Asleep | Busy(record: Record, seen: Losses) | Gone

  datatype State = State(
    queue: seq<Record>, stats: Stats, completed: nat, reported: Reported, stopping: bool,
    notifyOwed: bool, worker: Worker, sink: seq<Line>, started: bool)

  datatype Step =
    | Enqueue(important: bool, valid: bool, size: nat, stored: bool)
    | Check
    | Complete(written: bool)
    | Stop
    | NotifyStop

  function Init(started: bool): State {
    State([], Stats(0, 0, if started then 0 else 1, 0, 0, 0), 0, Reported(0, 0), !started,
          false, if started then Awake else Gone, [], started)
  }

  predicate Refused(s: State, step: Step)
    requires step.Enqueue?
  {
    || !step.valid || step.size > MAX_PAYLOAD || s.stopping || !step.stored
    || |s.queue| >= (if step.important then CAPACITY else CAPACITY - ERROR_RESERVE)
  }

  function Drop(stats: Stats, important: bool): Stats {
    stats.(dropped := stats.dropped + 1,
           criticalDropped := if important then stats.criticalDropped + 1 else stats.criticalDropped)
  }

  function Accept(stats: Stats, queued: nat): Stats {
    stats.(accepted := stats.accepted + 1,
           peakQueued := if stats.peakQueued < queued then queued else stats.peakQueued)
  }

  function LossesOf(stats: Stats): Losses { Losses(stats.dropped, stats.criticalDropped, stats.failed) }

  /** What the record says of earlier losses: nothing, unless they have changed since the last one written. */
  function Note(s: State, seen: Losses): Option<Losses> {
    if seen.dropped != s.reported.dropped || seen.failed != s.reported.failed then Some(seen) else None
  }

  predicate Enabled(s: State, step: Step) {
    match step
    case Enqueue(_, _, _, _) => true
    case Check => s.worker.Awake?
    case Complete(_) => s.worker.Busy?
    case Stop => !s.stopping
    case NotifyStop => s.notifyOwed
  }

  function Apply(s: State, step: Step): State
    requires Enabled(s, step)
  {
    match step
    case Enqueue(important, _, size, _) =>
      if Refused(s, step) then s.(stats := Drop(s.stats, important))
      else s.(queue := s.queue + [Record(s.stats.accepted + 1, important, size)],
              stats := Accept(s.stats, |s.queue| + 1),
              worker := if s.worker.Asleep? then Awake else s.worker)
    case Check =>
      if s.queue != [] then s.(worker := Busy(s.queue[0], LossesOf(s.stats)), queue := s.queue[1..])
      else s.(worker := if s.stopping then Gone else Asleep)
    case Complete(written) =>
      var t := s.(worker := Awake, completed := s.worker.record.sequence,
                  sink := s.sink + [Line(s.worker.record.sequence, written, Note(s, s.worker.seen))]);
      if written
      then t.(stats := s.stats.(written := s.stats.written + 1),
              reported := Reported(s.worker.seen.dropped, s.worker.seen.failed))
      else t.(stats := s.stats.(failed := s.stats.failed + 1))
    case Stop => s.(stopping := true, notifyOwed := true)
    case NotifyStop => s.(notifyOwed := false, worker := if s.worker.Asleep? then Awake else s.worker)
  }

  // ---------------------------------------------------------------- invariants

  function InFlight(s: State): nat { if s.worker.Busy? then 1 else 0 }

  /** Every accepted record is written, failed, waiting or in the worker's hand. */
  predicate Accounted(s: State) {
    && s.stats.accepted + (if s.started then 0 else 1) ==
       s.stats.written + s.stats.failed + |s.queue| + InFlight(s)
    && s.completed + |s.queue| + InFlight(s) == s.stats.accepted
    && |s.sink| == s.completed
  }

  /** The sink, the worker's hand and the queue hold 1, 2, 3, ... in acceptance order. */
  predicate Ordered(s: State) {
    && (forall i :: 0 <= i < |s.sink| ==> s.sink[i].sequence == i + 1)
    && (s.worker.Busy? ==> s.worker.record.sequence == |s.sink| + 1)
    && (forall i :: 0 <= i < |s.queue| ==> s.queue[i].sequence == |s.sink| + InFlight(s) + i + 1)
  }

  predicate Bounded(s: State) {
    && |s.queue| <= s.stats.peakQueued <= CAPACITY
    && forall i :: CAPACITY - ERROR_RESERVE <= i < |s.queue| ==> s.queue[i].important
  }

  /** A sleeping worker has nothing to do, or is still to be notified; one that is gone left nothing. */
  predicate Awaited(s: State) {
    && (s.worker.Asleep? ==> s.queue == [] && (s.stopping ==> s.notifyOwed))
    && (s.worker.Gone? ==> s.queue == [] && s.stopping)
    && (!s.started ==> s.worker.Gone?)
  }

  predicate Inv(s: State) {
    Accounted(s) && Ordered(s) && Bounded(s) && Awaited(s)
  }

  lemma InitInv(started: bool)
    ensures Inv(Init(started))
  {
  }

  lemma EnqueueInv(s: State, step: Step)
    requires Inv(s) && step.Enqueue?
    ensures Inv(Apply(s, step))
  {
  }

  lemma CheckInv(s: State)
    requires Inv(s) && s.worker.Awake?
    ensures Inv(Apply(s, Check))
  {
  }

  lemma CompleteInv(s: State, written: bool)
    requires Inv(s) && s.worker.Busy?
    ensures Inv(Apply(s, Complete(written)))
  {
  }

  lemma StepInv(s: State, step: Step)
    requires Inv(s) && Enabled(s, step)
    ensures Inv(Apply(s, step))
  {
    match step
    case Enqueue(_, _, _, _) => EnqueueInv(s, step);
    case Check => CheckInv(s);
    case Complete(written) => CompleteInv(s, written);
    case Stop =>
    case NotifyStop =>
  }

  // ------------------------------------------------------------------------ runs

  ghost predicate IsRun(run: seq<State>, steps: seq<Step>) {
    && |run| == |steps| + 1
    && (exists started :: run[0] == Init(started))
    && forall i :: 0 <= i < |steps| ==> Enabled(run[i], steps[i]) && run[i + 1] == Apply(run[i], steps[i])
  }

  lemma {:induction false} RunInv(run: seq<State>, steps: seq<Step>, i: nat)
    requires IsRun(run, steps) && i < |run|
    ensures Inv(run[i])
  {
    if i == 0 {
      var started :| run[0] == Init(started);
      InitInv(started);
    } else {
      RunInv(run, steps, i - 1);
      StepInv(run[i - 1], steps[i - 1]);
      assert run[i] == Apply(run[i - 1], steps[i - 1]);
    }
  }

  /** What has been to the sink. */
  predicate Settled(s: State, sequence: nat) {
    1 <= sequence <= |s.sink| && s.sink[sequence - 1].sequence == sequence
  }

  /**
   A flush that takes its target in state `i` and returns in state `j` returns after
   every record accepted by then has been through the sink.
   */
  lemma FlushWaitsForAll(run: seq<State>, steps: seq<Step>, i: nat, j: nat, sequence: nat)
    requires IsRun(run, steps) && i <= j < |run|
    requires run[j].completed >= run[i].stats.accepted
    requires 1 <= sequence <= run[i].stats.accepted
    ensures Settled(run[j], sequence)
  {
    RunInv(run, steps, j);
  }

  /** A flush that has to wait waits for a worker that can act, or is about to be able to. */
  lemma FlushIsNeverStranded(run: seq<State>, steps: seq<Step>, i: nat, j: nat)
    requires IsRun(run, steps) && i <= j < |run|
    requires run[j].completed < run[i].stats.accepted
    ensures run[j].worker.Awake? || run[j].worker.Busy?
  {
    RunInv(run, steps, j);
    AcceptedGrows(run, steps, i, j);
  }

  lemma {:induction false} AcceptedGrows(run: seq<State>, steps: seq<Step>, i: nat, j: nat)
    requires IsRun(run, steps) && i <= j < |run|
    ensures run[i].stats.accepted <= run[j].stats.accepted
    decreases j
  {
    if i < j {
      AcceptedGrows(run, steps, i, j - 1);
      assert run[j] == Apply(run[j - 1], steps[j - 1]);
    }
  }

  /** Once the writer has stopped and its worker gone, every accepted record has been to the sink. */
  lemma ShutdownDrains(run: seq<State>, steps: seq<Step>, i: nat)
    requires IsRun(run, steps) && i < |run| && run[i].worker.Gone?
    ensures run[i].completed == run[i].stats.accepted && run[i].queue == []
  {
    RunInv(run, steps, i);
  }

  function IsImportant(r: Record): bool { r.important }

  lemma {:induction false} AllCounted(queue: seq<Record>)
    requires forall i :: 0 <= i < |queue| ==> queue[i].important
    ensures Count(queue, IsImportant) == |queue|
  {
    if queue != [] {
      assert forall i :: 0 <= i < |queue| - 1 ==> queue[1..][i] == queue[i + 1];
      AllCounted(queue[1..]);
    }
  }

  /**
   What the reserve is for: an open writer refuses a well-formed critical record only when
   at least as many critical records as the reserve holds are already waiting.
   */
  lemma CriticalYieldsOnlyToCritical(run: seq<State>, steps: seq<Step>, i: nat, size: nat)
    requires IsRun(run, steps) && i < |run| && !run[i].stopping && size <= MAX_PAYLOAD
    requires Refused(run[i], Enqueue(true, true, size, true))
    ensures Count(run[i].queue, IsImportant) >= ERROR_RESERVE
  {
    RunInv(run, steps, i);
    var q := run[i].queue;
    var k := CAPACITY - ERROR_RESERVE;
    assert q == q[..k] + q[k..];
    CountConcat(q[..k], q[k..], IsImportant);
    assert forall j :: 0 <= j < |q| - k ==> q[k..][j] == q[j + k];
    AllCounted(q[k..]);
  }

  // ---------------------------------------------------------------- reported losses

  /** The latest note among written lines, or none at all. */
  function LastNote(sink: seq<Line>): (r: Losses)
  {
    if sink == [] then Losses(0, 0, 0)
    else
      var l := sink[|sink| - 1];
      if l.written && l.note.Some? then l.note.value else LastNote(sink[..|sink| - 1])
  }

  predicate Says(a: Losses, dropped: nat, failed: nat) { a.dropped == dropped && a.failed == failed }

  /** The writer reports by difference, and what it holds reported is what it wrote. */
  predicate Reporting(s: State) {
    Says(LastNote(s.sink), s.reported.dropped, s.reported.failed)
  }

  lemma LastNoteSnoc(sink: seq<Line>, l: Line)
    ensures LastNote(sink + [l]) == if l.written && l.note.Some? then l.note.value else LastNote(sink)
  {
    assert (sink + [l])[..|sink|] == sink;
  }

  lemma ReportingStep(s: State, step: Step)
    requires Reporting(s) && Enabled(s, step)
    ensures Reporting(Apply(s, step))
  {
    hide LastNote;
    if step.Complete? {
      LastNoteSnoc(s.sink, Line(s.worker.record.sequence, step.written, Note(s, s.worker.seen)));
    }
  }

  lemma {:induction false} RunReports(run: seq<State>, steps: seq<Step>, i: nat)
    requires IsRun(run, steps) && i < |run|
    ensures Reporting(run[i])
  {
    if i > 0 {
      RunReports(run, steps, i - 1);
      ReportingStep(run[i - 1], steps[i - 1]);
      assert run[i] == Apply(run[i - 1], steps[i - 1]);
    }
  }

  /**
   No loss stays unreported past a written record: after it, the last note written says
   exactly how many records had been dropped or had failed when it was taken.
   */
  lemma LossesBecomeVisible(run: seq<State>, steps: seq<Step>, i: nat)
    requires IsRun(run, steps) && i < |steps|
    requires steps[i] == Complete(true)
    ensures run[i].worker.Busy?
    ensures Says(LastNote(run[i + 1].sink), run[i].worker.seen.dropped, run[i].worker.seen.failed)
  {
    RunReports(run, steps, i + 1);
    assert run[i + 1] == Apply(run[i], steps[i]);
  }
}
