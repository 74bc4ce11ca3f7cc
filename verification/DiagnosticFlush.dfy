/**
 The callers of `flush`, laid over the writer's state machine: each waits on a condition
 variable that the worker notifies after it has given up the lock.
 */
module DiagnosticFlush {
  import opened DiagnosticModel

  /** A caller about to test its condition, asleep, or back from `flush`. */
  datatype Caller = Looking(target: nat) | Sleeping(target: nat) | Returned(target: nat)

  /** `owed` counts the completions whose `notify_all` is still to come. */
  datatype Wired = Wired(core: State, callers: seq<Caller>, owed: nat)

  datatype Event =
    | Does(step: Step)
    | FlushBegins
    | FlushLooks(caller: nat)
    | FlushWakes(caller: nat)
    | Broadcast

  predicate Possible(w: Wired, e: Event) {
    match e
    case Does(step) => Enabled(w.core, step)
    case FlushBegins => true
    case FlushLooks(i) => i < |w.callers| && w.callers[i].Looking?
    case FlushWakes(i) => i < |w.callers| && w.callers[i].Sleeping?
    case Broadcast => w.owed > 0
  }

  function WakeAll(callers: seq<Caller>): (r: seq<Caller>)
    ensures |r| == |callers|
    ensures forall i :: 0 <= i < |callers| ==>
              r[i] == if callers[i].Sleeping? then Looking(callers[i].target) else callers[i]
  {
    seq(|callers|, i requires 0 <= i < |callers| =>
      if callers[i].Sleeping? then Looking(callers[i].target) else callers[i])
  }

  function Next(w: Wired, e: Event): Wired
    requires Possible(w, e)
  {
    match e
    case Does(step) => w.(core := Apply(w.core, step), owed := if step.Complete? then w.owed + 1 else w.owed)
    case FlushBegins => w.(callers := w.callers + [Looking(w.core.stats.accepted)])
    case FlushLooks(i) =>
      var target := w.callers[i].target;
      w.(callers := w.callers[i := if w.core.completed >= target then Returned(target) else Sleeping(target)])
    case FlushWakes(i) => w.(callers := w.callers[i := Looking(w.callers[i].target)])
    case Broadcast => w.(callers := WakeAll(w.callers), owed := w.owed - 1)
  }

  // ---------------------------------------------------------------- invariants

  /** A caller waits for records that were accepted, and sleeps past their completion only if owed a broadcast. */
  predicate Served(c: Caller, s: State, owed: nat) {
    && c.target <= s.stats.accepted
    && (c.Sleeping? && s.completed >= c.target ==> owed > 0)
    && (c.Returned? ==> s.completed >= c.target)
  }

  predicate AllServed(w: Wired) {
    forall i :: 0 <= i < |w.callers| ==> Served(w.callers[i], w.core, w.owed)
  }

  /** Only a completion moves `completed`, and nothing moves it or the acceptances back. */
  lemma CoreMoves(s: State, step: Step)
    requires Inv(s) && Enabled(s, step)
    ensures var t := Apply(s, step);
            && t.stats.accepted >= s.stats.accepted && t.completed >= s.completed
            && (!step.Complete? ==> t.completed == s.completed)
  {
  }

  lemma EventServed(w: Wired, e: Event)
    requires Inv(w.core) && AllServed(w) && Possible(w, e)
    ensures AllServed(Next(w, e))
  {
    if e.Does? { CoreMoves(w.core, e.step); }
    hide Inv, Apply, Enabled;
    var t := Next(w, e);
    forall i | 0 <= i < |t.callers| ensures Served(t.callers[i], t.core, t.owed)
    {
      if i < |w.callers| { assert Served(w.callers[i], w.core, w.owed); }
    }
  }

  // ---------------------------------------------------------------------- runs

  ghost predicate IsWiredRun(run: seq<Wired>, events: seq<Event>) {
    && |run| == |events| + 1
    && (exists started :: run[0] == Wired(Init(started), [], 0))
    && forall i :: 0 <= i < |events| ==> Possible(run[i], events[i]) && run[i + 1] == Next(run[i], events[i])
  }

  lemma {:induction false} WiredRunInv(run: seq<Wired>, events: seq<Event>, i: nat)
    requires IsWiredRun(run, events) && i < |run|
    ensures Inv(run[i].core) && AllServed(run[i])
  {
    if i == 0 {
      var started :| run[0] == Wired(Init(started), [], 0);
      InitInv(started);
    } else {
      hide Inv, AllServed, Apply, Enabled;
      WiredRunInv(run, events, i - 1);
      EventServed(run[i - 1], events[i - 1]);
      assert run[i] == Next(run[i - 1], events[i - 1]);
      if events[i - 1].Does? { StepInv(run[i - 1].core, events[i - 1].step); }
    }
  }

  /**
   No flush is slept through: a sleeping caller whose records are complete is owed a
   broadcast, and one whose records are not waits for a worker that can act.
   */
  lemma SleepingFlushIsOwed(run: seq<Wired>, events: seq<Event>, i: nat, caller: nat)
    requires IsWiredRun(run, events) && i < |run| && caller < |run[i].callers| && run[i].callers[caller].Sleeping?
    ensures var w := run[i];
            if w.core.completed >= w.callers[caller].target then w.owed > 0
            else w.core.worker.Awake? || w.core.worker.Busy?
  {
    WiredRunInv(run, events, i);
    var w := run[i];
    assert Served(w.callers[caller], w.core, w.owed);
    if w.core.completed < w.callers[caller].target { UnfinishedHasWorker(w.core); }
  }

  lemma UnfinishedHasWorker(s: State)
    requires Inv(s) && s.completed < s.stats.accepted
    ensures s.worker.Awake? || s.worker.Busy?
  {
  }

  lemma {:induction false} TargetStays(run: seq<Wired>, events: seq<Event>, i: nat, j: nat, caller: nat)
    requires IsWiredRun(run, events) && i <= j < |run| && caller < |run[i].callers|
    ensures caller < |run[j].callers| && run[j].callers[caller].target == run[i].callers[caller].target
  {
    if i < j {
      TargetStays(run, events, i, j - 1, caller);
      hide Apply, Enabled;
      assert run[j] == Next(run[j - 1], events[j - 1]);
    }
  }

  /** When a flush returns, every record accepted before it began has been through the sink. */
  lemma ReturnedFlushIsSettled(run: seq<Wired>, events: seq<Event>, i: nat, j: nat, sequence: nat)
    requires IsWiredRun(run, events) && i < j < |run| && events[i].FlushBegins?
    requires |run[i].callers| < |run[j].callers| && run[j].callers[|run[i].callers|].Returned?
    requires 1 <= sequence <= run[i].core.stats.accepted
    ensures Settled(run[j].core, sequence)
  {
    var caller := |run[i].callers|;
    assert run[i + 1] == Next(run[i], events[i]);
    TargetStays(run, events, i + 1, j, caller);
    WiredRunInv(run, events, j);
    assert Served(run[j].callers[caller], run[j].core, run[j].owed);
    SettledUpTo(run[j].core, sequence);
  }

  lemma SettledUpTo(s: State, sequence: nat)
    requires Inv(s) && 1 <= sequence <= s.completed
    ensures Settled(s, sequence)
  {
  }
}
