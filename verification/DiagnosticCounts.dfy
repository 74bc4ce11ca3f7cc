/**
 What the diagnostic writer's numbers count: which records are taken, what the statistics
 add up over a run, and when a line carries a note of losses.
 */
module DiagnosticCounts {
  import opened Counting
  import opened Wrappers
  import opened DiagnosticModel

  // ------------------------------------------------------------------ admission

  /** The slots a record may use: 512, of which the last 64 are for critical ones. */
  predicate Fits(s: State, important: bool, size: nat) {
    !s.stopping && size <= 16128 && |s.queue| < if important then 512 else 448
  }

  /** A record is taken exactly when it is well formed, fits and can be stored; it goes last, as it is. */
  lemma TakenExactly(s: State, important: bool, valid: bool, size: nat, stored: bool)
    ensures var t := Apply(s, Enqueue(important, valid, size, stored));
            if valid && stored && Fits(s, important, size)
            then
              && t.queue == s.queue + [t.queue[|s.queue|]] && t.queue[|s.queue|].important == important
              && t.queue[|s.queue|].size == size && t.queue[|s.queue|].sequence == t.stats.accepted
              && t.stats.accepted == s.stats.accepted + 1 && t.stats.dropped == s.stats.dropped
              && t.worker == (if s.worker == Asleep then Awake else s.worker)
            else
              && t.queue == s.queue && t.worker == s.worker && t.stats.accepted == s.stats.accepted
              && t.stats.dropped == s.stats.dropped + 1
              && t.stats.criticalDropped == s.stats.criticalDropped + if important then 1 else 0
    ensures var t := Apply(s, Enqueue(important, valid, size, stored));
            && t.sink == s.sink && t.completed == s.completed && t.reported == s.reported
            && t.stats.written == s.stats.written && t.stats.failed == s.stats.failed && t.stopping == s.stopping
  {
  }

  /** The worker takes the oldest record, with the losses as they stand. */
  lemma TakesOldest(s: State)
    requires s.worker.Awake? && s.queue != []
    ensures var t := Apply(s, Check);
            && s.queue == [t.worker.record] + t.queue && t.stats == s.stats && t.sink == s.sink
            && t.worker.seen.dropped == s.stats.dropped && t.worker.seen.critical == s.stats.criticalDropped
            && t.worker.seen.failed == s.stats.failed
  {
  }

  // ----------------------------------------------------------------- statistics

  /** Whether step `i` tries to hand a record in and fails. */
  predicate Loses(run: seq<State>, steps: seq<Step>, i: nat)
    requires i < |steps| && |run| == |steps| + 1
  {
    steps[i].Enqueue? && run[i + 1].queue == run[i].queue
  }

  predicate LosesCritical(run: seq<State>, steps: seq<Step>, i: nat)
    requires i < |steps| && |run| == |steps| + 1
  {
    Loses(run, steps, i) && steps[i].important
  }

  function Lost(run: seq<State>, steps: seq<Step>, k: nat): nat
    requires k <= |steps| && |run| == |steps| + 1
  {
    if k == 0 then 0 else Lost(run, steps, k - 1) + if Loses(run, steps, k - 1) then 1 else 0
  }

  function LostCritical(run: seq<State>, steps: seq<Step>, k: nat): nat
    requires k <= |steps| && |run| == |steps| + 1
  {
    if k == 0 then 0 else LostCritical(run, steps, k - 1) + if LosesCritical(run, steps, k - 1) then 1 else 0
  }

  function WasWritten(l: Line): bool { l.written }

  function WasNotWritten(l: Line): bool { !l.written }

  lemma EnqueueCounts(s: State, step: Step)
    requires step.Enqueue?
    ensures var t := Apply(s, step);
            var lost := t.queue == s.queue;
            && t.stats.dropped == s.stats.dropped + (if lost then 1 else 0)
            && t.stats.criticalDropped == s.stats.criticalDropped + if lost && step.important then 1 else 0
  {
    TakenExactly(s, step.important, step.valid, step.size, step.stored);
  }

  lemma OthersLoseNothing(s: State, step: Step)
    requires Enabled(s, step) && !step.Enqueue?
    ensures Apply(s, step).stats.dropped == s.stats.dropped
    ensures Apply(s, step).stats.criticalDropped == s.stats.criticalDropped
  {
  }

  /** Over any run the two loss counters are the numbers of records, and of critical records, refused. */
  lemma {:induction false} DroppedAreCounted(run: seq<State>, steps: seq<Step>, k: nat)
    requires IsRun(run, steps) && k < |run|
    ensures run[k].stats.dropped == Lost(run, steps, k)
    ensures run[k].stats.criticalDropped == LostCritical(run, steps, k)
  {
    if k > 0 {
      DroppedAreCounted(run, steps, k - 1);
      assert run[k] == Apply(run[k - 1], steps[k - 1]);
      hide Apply;
      if steps[k - 1].Enqueue? {
        EnqueueCounts(run[k - 1], steps[k - 1]);
      } else {
        OthersLoseNothing(run[k - 1], steps[k - 1]);
      }
    }
  }

  /** The other two are what the sink holds, and one failure for a worker that never started. */
  predicate SinkCounted(s: State) {
    && s.stats.written == Count(s.sink, WasWritten)
    && s.stats.failed == Count(s.sink, WasNotWritten) + if s.started then 0 else 1
  }

  lemma SinkCountedStep(s: State, step: Step)
    requires SinkCounted(s) && Enabled(s, step)
    ensures SinkCounted(Apply(s, step))
  {
    if step.Complete? {
      var line := Line(s.worker.record.sequence, step.written, Note(s, s.worker.seen));
      CountAppend(s.sink, line, WasWritten);
      CountAppend(s.sink, line, WasNotWritten);
    }
  }

  lemma {:induction false} LinesAreCounted(run: seq<State>, steps: seq<Step>, k: nat)
    requires IsRun(run, steps) && k < |run|
    ensures SinkCounted(run[k])
  {
    if k > 0 {
      hide Apply, SinkCounted;
      LinesAreCounted(run, steps, k - 1);
      SinkCountedStep(run[k - 1], steps[k - 1]);
      assert run[k] == Apply(run[k - 1], steps[k - 1]);
    }
  }

  /** The queue has been that long in some state of the run so far. */
  ghost predicate Reached(run: seq<State>, k: nat, length: nat)
    requires k < |run|
  {
    exists m :: 0 <= m <= k && |run[m].queue| == length
  }

  lemma PeakStep(s: State, step: Step)
    requires Enabled(s, step) && |s.queue| <= s.stats.peakQueued
    ensures var t := Apply(s, step);
            && |t.queue| <= t.stats.peakQueued
            && (t.stats.peakQueued == s.stats.peakQueued || t.stats.peakQueued == |t.queue| > s.stats.peakQueued)
  {
  }

  /** The peak is the greatest length the queue has had. */
  lemma {:induction false} PeakIsReached(run: seq<State>, steps: seq<Step>, k: nat)
    requires IsRun(run, steps) && k < |run|
    ensures Reached(run, k, run[k].stats.peakQueued)
    ensures forall m :: 0 <= m <= k ==> |run[m].queue| <= run[k].stats.peakQueued
  {
    if k == 0 {
      assert |run[0].queue| == 0;
    } else {
      PeakIsReached(run, steps, k - 1);
      assert run[k] == Apply(run[k - 1], steps[k - 1]);
      hide Apply, Enabled;
      PeakStep(run[k - 1], steps[k - 1]);
      if run[k].stats.peakQueued == run[k - 1].stats.peakQueued {
        var m :| 0 <= m <= k - 1 && |run[m].queue| == run[k - 1].stats.peakQueued;
        assert |run[m].queue| == run[k].stats.peakQueued;
      }
    }
  }

  // ----------------------------------------------------------------------- notes

  /** A line carries a note exactly when the losses it saw differ from those last written, and then says them. */
  lemma NotesAreNews(run: seq<State>, steps: seq<Step>, i: nat)
    requires IsRun(run, steps) && i < |steps| && steps[i].Complete?
    ensures run[i].worker.Busy? && |run[i + 1].sink| == |run[i].sink| + 1
    ensures var seen, line := run[i].worker.seen, run[i + 1].sink[|run[i].sink|];
            && line.sequence == run[i].worker.record.sequence && line.written == steps[i].written
            && (line.note == None <==> Says(LastNote(run[i].sink), seen.dropped, seen.failed))
            && (line.note.Some? ==> line.note.value == seen)
  {
    RunReports(run, steps, i);
    assert run[i + 1] == Apply(run[i], steps[i]);
  }
}
