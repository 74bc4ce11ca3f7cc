/**
 The diagnostic writer as it runs: a queue and counters under one mutex, producers on one
 side and a single worker on the other. Each method is one locked region.
 */
module DiagnosticWriterClass {
  import opened Wrappers
  import M = DiagnosticModel

  class DiagnosticWriter {
    var queue: seq<M.Record>
    var stats: M.Stats
    var completedSequence: nat
    var reported: M.Reported
    var stopping: bool
    var notifyOwed: bool
    var worker: M.Worker
    /** What the sink has been handed. */
    var sink: seq<M.Line>
    const started: bool

    ghost function Value(): M.State
      reads this
    {
      M.State(queue, stats, completedSequence, reported, stopping, notifyOwed, worker, sink, started)
    }

    ghost predicate Valid()
      reads this
    {
      M.Inv(Value())
    }

    constructor (threadStarts: bool)
      ensures Valid() && Value() == M.Init(threadStarts)
    {
      queue, stats, completedSequence := [], M.Stats(0, 0, 0, 0, 0, 0), 0;
      reported, stopping, notifyOwed, worker, sink := M.Reported(0, 0), false, false, M.Awake, [];
      started := threadStarts;
      if !threadStarts {
        stopping, stats, worker := true, M.Stats(0, 0, 1, 0, 0, 0), M.Gone;
      }
      new;
      M.InitInv(threadStarts);
    }

    /** Whether a record is taken; a critical one may use the slots the others leave free. */
    method Enqueue(important: bool, valid: bool, size: nat, stored: bool) returns (taken: bool)
      requires Valid()
      modifies this
      ensures Valid() && Value() == M.Apply(old(Value()), M.Enqueue(important, valid, size, stored))
      ensures taken == !M.Refused(old(Value()), M.Enqueue(important, valid, size, stored))
    {
      M.EnqueueInv(Value(), M.Enqueue(important, valid, size, stored));
      hide M.Inv;
      var limit := if important then M.CAPACITY else M.CAPACITY - M.ERROR_RESERVE;
      if !valid || size > M.MAX_PAYLOAD || stopping || |queue| >= limit || !stored {
        CountDrop(important);
        return false;
      }
      Push(important, size);
      return true;
    }

    method CountDrop(important: bool)
      modifies `stats
      ensures stats == M.Drop(old(stats), important)
    {
      stats := stats.(dropped := stats.dropped + 1);
      if important { stats := stats.(criticalDropped := stats.criticalDropped + 1); }
    }

    /** The record gets the next number, and a sleeping worker is woken for it. */
    method Push(important: bool, size: nat)
      modifies `queue, `stats, `worker
      ensures queue == old(queue) + [M.Record(old(stats).accepted + 1, important, size)]
      ensures stats == M.Accept(old(stats), |old(queue)| + 1)
      ensures worker == if old(worker).Asleep? then M.Awake else old(worker)
    {
      var sequence := stats.accepted + 1;
      queue := queue + [M.Record(sequence, important, size)];
      stats := stats.(accepted := sequence);
      if stats.peakQueued < |queue| { stats := stats.(peakQueued := |queue|); }
      if worker.Asleep? { worker := M.Awake; }
    }

    /** The worker's turn at the queue: take the front, sleep, or leave for good. */
    method TakeRegion()
      requires Valid() && worker.Awake?
      modifies this
      ensures Valid() && Value() == M.Apply(old(Value()), M.Check)
    {
      M.CheckInv(Value());
      hide M.Inv;
      if queue != [] {
        var record := queue[0];
        queue := queue[1..];
        worker := M.Busy(record, M.LossesOf(stats));
      } else if stopping {
        worker := M.Gone;
      } else {
        worker := M.Asleep;
      }
    }

    /** The sink's verdict on the record in hand is counted and the record completed. */
    method CompleteRegion(sinkWrote: bool)
      requires Valid() && worker.Busy?
      modifies this
      ensures Valid() && Value() == M.Apply(old(Value()), M.Complete(sinkWrote))
    {
      M.CompleteInv(Value(), sinkWrote);
      hide M.Inv;
      var record, seen := worker.record, worker.seen;
      var note := None;
      if seen.dropped != reported.dropped || seen.failed != reported.failed {
        note := Some(seen);
      }
      sink := sink + [M.Line(record.sequence, sinkWrote, note)];
      if sinkWrote {
        stats := stats.(written := stats.written + 1);
        reported := M.Reported(seen.dropped, seen.failed);
      } else {
        stats := stats.(failed := stats.failed + 1);
      }
      completedSequence := record.sequence;
      worker := M.Awake;
    }

    method BeginShutdown()
      requires Valid() && !stopping
      modifies this
      ensures Valid() && Value() == M.Apply(old(Value()), M.Stop)
    {
      M.StepInv(Value(), M.Stop);
      hide M.Inv;
      stopping, notifyOwed := true, true;
    }

    method NotifyShutdown()
      requires Valid() && notifyOwed
      modifies this
      ensures Valid() && Value() == M.Apply(old(Value()), M.NotifyStop)
    {
      M.StepInv(Value(), M.NotifyStop);
      hide M.Inv;
      notifyOwed := false;
      if worker.Asleep? { worker := M.Awake; }
    }

    /** What a flush waits for when it starts. */
    method FlushTarget() returns (target: nat)
      requires Valid()
      ensures target == stats.accepted && target >= completedSequence
    {
      hide M.Ordered, M.Bounded, M.Awaited;
      target := stats.accepted;
    }

    /** A flush may return: everything up to its target has been through the sink. */
    method FlushDone(target: nat) returns (done: bool)
      requires Valid()
      ensures done ==> forall q :: 1 <= q <= target ==> M.Settled(Value(), q)
      ensures !done ==> completedSequence < target
    {
      done := completedSequence >= target;
    }
  }
}
