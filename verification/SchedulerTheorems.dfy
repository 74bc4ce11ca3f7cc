/**
 The promises of the request scheduler, for every run from a fresh start.
 */
module SchedulerTheorems {
  import opened Counting
  import opened SchedulerModel
  import opened SchedulerProofs

  ghost predicate IsRun(workers: nat, states: seq<State>, steps: seq<Step>) {
    && workers > 0
    && |states| == |steps| + 1
    && states[0] == Init(workers)
    && forall k :: 0 <= k < |steps| ==> Enabled(states[k], steps[k]) && states[k + 1] == Apply(states[k], steps[k])
  }

  lemma {:induction false} RunInv(workers: nat, states: seq<State>, steps: seq<Step>, k: nat)
    requires IsRun(workers, states, steps) && k < |states|
    ensures Inv(states[k])
  {
    if k == 0 {
      InitInv(workers);
    } else {
      RunInv(workers, states, steps, k - 1);
      StepInv(states[k - 1], steps[k - 1]);
    }
  }

  // --------------------------------------------------------- lost wake-ups

  /** A thread that will look at the queue again without anybody's help. */
  predicate WillLook(s: State) {
    || s.owedOne > 0 || s.owedAll > 0
    || exists i :: 0 <= i < |s.workers| && (s.workers[i].Checking? || s.workers[i].Notifying?)
  }

  /** No stranded work: while a worker sleeps, work it could take is about to be looked at. */
  lemma NoStrandedWork(workers: nat, states: seq<State>, steps: seq<Step>, k: nat)
    requires IsRun(workers, states, steps) && k < |states|
    ensures var s := states[k];
            && (Eligible(s) > 0 && Sleeper(s.workers) ==> WillLook(s))
            && (AtRest(s) ==> Eligible(s) <= Count(s.workers, IsChecking) + s.owedOne)
            && (Eligible(s) > 0 && s.phase.Settled? && !s.shutdown ==>
                  WillLook(s) || forall i :: 0 <= i < |s.workers| ==> s.workers[i].Running?)
  {
    RunInv(workers, states, steps, k);
    CountZero(states[k].workers, IsChecking);
  }

  lemma EligibleWithRoom(q: seq<Job>)
    ensures Count(q, CanStart(true)) == |q|
  {
    if q != [] { EligibleWithRoom(q[1..]); }
  }

  /** The draining shutdown cannot deadlock: as long as a worker is left, a thread can move. */
  lemma DrainNeverDeadlocks(workers: nat, states: seq<State>, steps: seq<Step>, k: nat)
    requires IsRun(workers, states, steps) && k < |states| && states[k].shutdown
    requires exists i :: 0 <= i < workers && i < |states[k].workers| && IsLive(states[k].workers[i])
    ensures var s := states[k];
            || s.owedAll > 0
            || exists i :: 0 <= i < |s.workers|
                 && (s.workers[i].Checking? || s.workers[i].Running? || s.workers[i].Notifying?)
    ensures var s := states[k];
            AtRest(s) ==> s.queue != [] && forall j :: 0 <= j < |s.queue| ==> IsImage(s.queue[j])
  {
    RunInv(workers, states, steps, k);
    var s := states[k];
    if AtRest(s) {
      EligibleWithRoom(s.queue);
      CountZero(s.workers, RunsImage);
      CountZero(s.queue, CanStart(Room(s)));
      assert forall j :: 0 <= j < |s.queue| ==> !CanStart(Room(s))(s.queue[j]);
    }
  }

  // -------------------------------------------------- the drain terminates

  /** How much work a thread position still stands for, `n` being the worker count. */
  function Weight(w: Worker, n: nat): nat {
    match w
    case Gone => 0
    case Exited => 0
    case Sleeping => 1
    case Checking => 2
    case Notifying => n + 3
    case Running(_) => n + 4
  }

  function Weights(ws: seq<Worker>, n: nat): nat {
    if ws == [] then 0 else Weight(ws[0], n) + Weights(ws[1..], n)
  }

  /** What is left to do before every worker has left. */
  function DrainWork(s: State): nat {
    var n := |s.workers|;
    (n + 3) * |s.queue| + Weights(s.workers, n) + 2 * s.owedOne + (n + 1) * s.owedAll
  }

  lemma {:induction false} WeightsUpdate(ws: seq<Worker>, i: nat, w: Worker, n: nat)
    requires i < |ws|
    ensures Weights(ws[i := w], n) + Weight(ws[i], n) == Weights(ws, n) + Weight(w, n)
  {
    if i == 0 {
      assert ws[i := w][1..] == ws[1..];
    } else {
      WeightsUpdate(ws[1..], i - 1, w, n);
      assert ws[i := w][1..] == ws[1..][i - 1 := w];
    }
  }

  lemma {:induction false} WeightsWake(ws: seq<Worker>, n: nat)
    ensures Weights(WakeAll(ws), n) <= Weights(ws, n) + |ws|
  {
    if ws != [] {
      WeightsWake(ws[1..], n);
      assert WakeAll(ws)[1..] == WakeAll(ws[1..]);
    }
  }

  /** Steps that bring a drain forward: everything threads do except waking for no reason. */
  predicate Advances(s: State, step: Step)
    requires Enabled(s, step)
  {
    match step
    case NotifyOne(_) => true
    case NotifyAll => true
    case Turn(_) => true
    case Finish(_) => true
    case Broadcast(_) => true
    case Retire(token) => FirstIndex(s.queue, CarriesToken(token)) < |s.queue|
    case _ => false
  }

  lemma TimesPred(a: nat, b: nat)
    requires b > 0
    ensures a * b == a * (b - 1) + a
  {
  }

  lemma DrainTurn(s: State, i: nat)
    requires Enabled(s, Turn(i))
    ensures DrainWork(Apply(s, Turn(i))) < DrainWork(s)
  {
    var t := Apply(s, Turn(i));
    var n := |s.workers|;
    WeightsUpdate(s.workers, i, t.workers[i], n);
    if |s.queue| > 0 {
      TimesPred(n + 3, |s.queue|);
    }
  }

  lemma DrainFinish(s: State, i: nat)
    requires Enabled(s, Finish(i))
    ensures DrainWork(Apply(s, Finish(i))) < DrainWork(s)
  {
    WeightsUpdate(s.workers, i, Apply(s, Finish(i)).workers[i], |s.workers|);
  }

  lemma DrainWake(s: State, step: Step)
    requires Enabled(s, step) && (step.NotifyOne? || step.NotifyAll? || step.Broadcast?)
    ensures DrainWork(Apply(s, step)) < DrainWork(s)
  {
    var n := |s.workers|;
    match step
    case NotifyOne(i) => WeightsUpdate(s.workers, i, Checking, n);
    case NotifyAll =>
      WeightsWake(s.workers, n);
      TimesPred(n + 1, s.owedAll);
    case Broadcast(i) =>
      WeightsWake(s.workers, n);
      WeightsUpdate(WakeAll(s.workers), i, Checking, n);
  }

  lemma DrainRetire(s: State, token: Token)
    requires FirstIndex(s.queue, CarriesToken(token)) < |s.queue|
    ensures DrainWork(Apply(s, Retire(token))) < DrainWork(s)
  {
    TimesPred(|s.workers| + 3, |s.queue|);
    TimesPred(|s.workers| + 1, s.owedAll + 1);
  }

  /** Once shut down, every advancing step uses up work, and submissions add none. */
  lemma DrainDescends(s: State, step: Step)
    requires s.shutdown && Enabled(s, step)
    ensures Advances(s, step) ==> DrainWork(Apply(s, step)) < DrainWork(s)
    ensures step.Enqueue? ==> Apply(s, step) == s
  {
    if Advances(s, step) {
      match step
      case Turn(i) => DrainTurn(s, i);
      case Finish(i) => DrainFinish(s, i);
      case Retire(token) => DrainRetire(s, token);
      case _ => DrainWake(s, step);
    }
  }

  /** A worker that wakes for no reason has one more look to take. */
  lemma DrainWakesSpuriously(s: State, step: Step)
    requires Enabled(s, step) && step.SpuriousWake?
    ensures DrainWork(Apply(s, step)) == DrainWork(s) + 1
  {
    WeightsUpdate(s.workers, step.worker, Checking, |s.workers|);
  }

  lemma {:induction false} WeightsGone(ws: seq<Worker>, n: nat)
    requires forall i :: 0 <= i < |ws| ==> ws[i].Gone?
    ensures Weights(ws, n) == 0
  {
    if ws != [] { WeightsGone(ws[1..], n); }
  }

  /** No other step under shutdown adds work, until a restart. */
  lemma DrainRests(s: State, step: Step)
    requires Inv(s) && s.shutdown && Enabled(s, step)
    requires !Advances(s, step) && !step.SpuriousWake? && !step.Restart?
    ensures DrainWork(Apply(s, step)) <= DrainWork(s) && Apply(s, step).shutdown
  {
    if step.JoinAll? {
      WeightsGone(Apply(s, step).workers, |s.workers|);
    } else if step.Judge? {
      WeightsUpdate(s.workers, s.phase.next, Gone, |s.workers|);
    }
  }

  /** How many of the first `k` steps bring the drain forward. */
  function Advancing(states: seq<State>, steps: seq<Step>, i: nat, k: nat): nat
    requires i <= k <= |steps| == |states| - 1
    requires forall m :: 0 <= m < |steps| ==> Enabled(states[m], steps[m])
  {
    if i == k then 0
    else Advancing(states, steps, i, k - 1) + if Advances(states[k - 1], steps[k - 1]) then 1 else 0
  }

  function Spurious(steps: seq<Step>, i: nat, k: nat): nat
    requires i <= k <= |steps|
  {
    if i == k then 0 else Spurious(steps, i, k - 1) + if steps[k - 1].SpuriousWake? then 1 else 0
  }

  /**
   A drain ends: from a shutdown to the next restart the threads take no more steps than
   there was work when it began, and one for each wake-up without a reason.
   */
  lemma {:induction false} DrainEnds(workers: nat, states: seq<State>, steps: seq<Step>, i: nat, k: nat)
    requires IsRun(workers, states, steps) && i <= k < |states| && states[i].shutdown
    requires forall m :: i <= m < k ==> !steps[m].Restart?
    ensures Advancing(states, steps, i, k) + DrainWork(states[k]) <= DrainWork(states[i]) + Spurious(steps, i, k)
    ensures states[k].shutdown
  {
    hide Inv, Apply, Enabled, DrainWork, Advances, Init;
    if i < k {
      DrainEnds(workers, states, steps, i, k - 1);
      RunInv(workers, states, steps, k - 1);
      DrainOne(states[k - 1], steps[k - 1]);
    }
  }

  lemma DrainOne(s: State, step: Step)
    requires Inv(s) && s.shutdown && Enabled(s, step) && !step.Restart?
    ensures Apply(s, step).shutdown
    ensures (if Advances(s, step) then 1 else 0) + DrainWork(Apply(s, step))
         <= DrainWork(s) + if step.SpuriousWake? then 1 else 0
  {
    hide DrainWork, Inv;
    if Advances(s, step) {
      DrainDescends(s, step);
    } else if step.SpuriousWake? {
      DrainWakesSpuriously(s, step);
    } else {
      DrainRests(s, step);
    }
  }

  // -------------------------------------------------------------- job fates

  /** The only ways a fate may change: each of the three exits is final. */
  predicate FateMay(before: Fate, after: Fate) {
    || before == after
    || (before.Queued? && !after.Finished?)
    || (before.RunningOn? && after.Finished?)
  }

  lemma FateMoves(s: State, step: Step, id: nat)
    requires Inv(s) && Enabled(s, step) && id in s.fate
    ensures id in Apply(s, step).fate && FateMay(s.fate[id], Apply(s, step).fate[id])
  {
    InvParts(s);
    hide Inv, Apply, Enabled, FateInv, LifeInv;
    if MovesNoJob(step) {
      QuietStep(s, step);
    } else if step.Retire? {
      FateMovesRetire(s, step.token, id);
    } else if step.Turn? {
      FateMovesTurn(s, step.worker, id);
    } else {
      FateMovesRest(s, step, id);
    }
  }

  lemma InvParts(s: State)
    requires Inv(s)
    ensures LifeInv(s) && FateInv(s.queue, s.workers, s.fate)
    ensures forall id: nat :: id in s.fate <==> id < s.accepted
  {
  }

  lemma FateMovesRetire(s: State, token: Token, id: nat)
    requires FateInv(s.queue, s.workers, s.fate) && id in s.fate
    ensures id in Apply(s, Retire(token)).fate && FateMay(s.fate[id], Apply(s, Retire(token)).fate[id])
  {
    var k := FirstIndex(s.queue, CarriesToken(token));
    if k < |s.queue| { assert s.fate[s.queue[k].id] == Queued; }
  }

  lemma FateMovesTurn(s: State, i: nat, id: nat)
    requires FateInv(s.queue, s.workers, s.fate) && id in s.fate && Enabled(s, Turn(i))
    ensures id in Apply(s, Turn(i)).fate && FateMay(s.fate[id], Apply(s, Turn(i)).fate[id])
  {
    var k := Pick(s);
    if k < |s.queue| { assert s.fate[s.queue[k].id] == Queued; }
  }

  lemma FateMovesRest(s: State, step: Step, id: nat)
    requires FateInv(s.queue, s.workers, s.fate) && id in s.fate && Enabled(s, step)
    requires step.Enqueue? || step.Finish? || step.ShutdownBounded?
    requires forall i: nat :: i in s.fate <==> i < s.accepted
    ensures id in Apply(s, step).fate && FateMay(s.fate[id], Apply(s, step).fate[id])
  {
    if step.Finish? { assert s.fate[s.workers[step.worker].job.id] == RunningOn(step.worker); }
    if step.ShutdownBounded? && id in QueuedIds(s.queue) { assert s.fate[id] == Queued; }
  }

  predicate Ended(f: Fate) { f.Finished? || f.Retired? || f.Rejected? }

  /** Once a job has finished, been retired or been rejected, nothing happens to it again. */
  lemma {:induction false} EndsOnce(workers: nat, states: seq<State>, steps: seq<Step>, j: nat, k: nat, id: nat)
    requires IsRun(workers, states, steps) && j <= k < |states|
    requires id in states[j].fate
    ensures id in states[k].fate
    ensures Ended(states[j].fate[id]) ==> states[k].fate[id] == states[j].fate[id]
    ensures states[j].fate[id].RunningOn? ==> states[k].fate[id] == states[j].fate[id] || states[k].fate[id].Finished?
  {
    hide IsRun, Inv, Apply, Enabled;
    if j < k {
      RunLength(workers, states, steps);
      EndsOnce(workers, states, steps, j, k - 1, id);
      RunInv(workers, states, steps, k - 1);
      OneStep(workers, states, steps, k - 1);
      FateMoves(states[k - 1], steps[k - 1], id);
      EndsStep(states[j].fate[id], states[k - 1].fate[id], states[k].fate[id]);
    }
  }

  lemma RunLength(workers: nat, states: seq<State>, steps: seq<Step>)
    requires IsRun(workers, states, steps)
    ensures |states| == |steps| + 1
  {
  }

  lemma OneStep(workers: nat, states: seq<State>, steps: seq<Step>, k: nat)
    requires IsRun(workers, states, steps) && k < |steps|
    ensures |states| == |steps| + 1 && Enabled(states[k], steps[k]) && states[k + 1] == Apply(states[k], steps[k])
  {
    hide Apply, Enabled;
  }

  lemma EndsStep(first: Fate, before: Fate, after: Fate)
    requires FateMay(before, after)
    requires Ended(first) ==> before == first
    requires first.RunningOn? ==> before == first || before.Finished?
    ensures Ended(first) ==> after == first
    ensures first.RunningOn? ==> after == first || after.Finished?
  {
  }

  /** Every accepted job is in exactly the place its fate names, and starts at most once. */
  lemma OnePlacePerJob(workers: nat, states: seq<State>, steps: seq<Step>, k: nat)
    requires IsRun(workers, states, steps) && k < |states|
    ensures var s := states[k];
            && (forall id: nat :: id in s.fate <==> id < s.accepted)
            && (forall id: nat :: id in QueuedIds(s.queue) <==> id in s.fate && s.fate[id].Queued?)
            && (forall id: nat, i: nat :: Holds(s.workers, i, id) <==> id in s.fate && s.fate[id] == RunningOn(i))
            && (forall m, n :: 0 <= m < n < |s.starts| ==> s.starts[m].id != s.starts[n].id)
            && (forall m, n :: 0 <= m < n < |s.queue| ==> s.queue[m].id != s.queue[n].id)
  {
    RunInv(workers, states, steps, k);
    var s := states[k];
    forall id: nat, i: nat | id in s.fate && s.fate[id] == RunningOn(i) ensures Holds(s.workers, i, id) {
      assert Holds(s.workers, s.fate[id].index, id);
    }
  }

  /** Within images and within everything else, jobs start in the order they were submitted. */
  lemma StartsInOrder(workers: nat, states: seq<State>, steps: seq<Step>, k: nat)
    requires IsRun(workers, states, steps) && k < |states|
    ensures var s := states[k];
            && (forall m, n :: 0 <= m < n < |s.starts| && IsImage(s.starts[m]) == IsImage(s.starts[n]) ==>
                  s.starts[m].id < s.starts[n].id)
            && (forall n, j | 0 <= n < |s.starts| && 0 <= j < |s.queue| ::
                  IsImage(s.starts[n]) == IsImage(s.queue[j]) ==>
                  s.starts[n].id < s.queue[j].id)
  {
    RunInv(workers, states, steps, k);
  }

  /** The image counter never lies, and images never crowd out the last `workers` queue slots. */
  lemma ImageLimits(workers: nat, states: seq<State>, steps: seq<Step>, k: nat)
    requires IsRun(workers, states, steps) && k < |states|
    ensures var s := states[k];
            && s.activeImages == Count(s.workers, (w: Worker) => w.Running? && w.job.kind == Image)
            && s.activeImages <= (if |s.workers| > 1 then |s.workers| / 2 else 1)
            && |s.queue| <= 4 * |s.workers|
            && Count(s.queue, (job: Job) => job.kind == Image) <= 3 * |s.workers|
  {
    RunInv(workers, states, steps, k);
    hide IsRun;
    CountMono(states[k].queue, (job: Job) => job.kind == Image, IsImage);
    CountMono(states[k].workers, (w: Worker) => w.Running? && w.job.kind == Image, RunsImage);
    CountMono(states[k].workers, RunsImage, (w: Worker) => w.Running? && w.job.kind == Image);
  }

  // -------------------------------------------------------------- lifecycle

  /** A thread is started only at an index no live thread uses, and only after a clean stop. */
  lemma RestartIsClean(workers: nat, states: seq<State>, steps: seq<Step>, k: nat)
    requires IsRun(workers, states, steps) && k < |steps|
    ensures var s := states[k];
            && (steps[k].StartWorker? ==> s.workers[s.phase.next].Gone?)
            && (steps[k].Restart? && s.shutdown && s.abandoned == 0 ==>
                  forall i :: 0 <= i < |s.workers| ==> s.workers[i].Gone?)
            && (steps[k].Restart? && s.shutdown && s.abandoned != 0 ==> states[k + 1] == s)
  {
    RunInv(workers, states, steps, k);
  }

  lemma RejectsQueued(s: State)
    requires Inv(s) && s.phase.Settled? && !s.shutdown
    ensures var t := Apply(s, ShutdownBounded);
            && t.shutdown && t.queue == [] && t.starts == s.starts
            && (forall j :: 0 <= j < |s.queue| ==>
                  && s.queue[j].id in t.fate && t.fate[s.queue[j].id] == Rejected
                  && s.queue[j].token in t.cancelled)
            && (forall i :: 0 <= i < |s.workers| && s.workers[i].Running? ==> s.workers[i].job.token in t.cancelled)
            && (forall id :: id in s.fate && !s.fate[id].Queued? ==> id in t.fate && t.fate[id] == s.fate[id])
  {
    var t := Apply(s, ShutdownBounded);
    forall j | 0 <= j < |s.queue|
      ensures s.queue[j].id in t.fate && t.fate[s.queue[j].id] == Rejected && s.queue[j].token in t.cancelled
    {
      assert s.queue[j].id in QueuedIds(s.queue);
      assert s.queue[j].token in QueuedTokens(s.queue);
    }
    forall i | 0 <= i < |s.workers| && s.workers[i].Running? ensures s.workers[i].job.token in t.cancelled {
      assert s.workers[i].job.token in ActiveTokens(s.workers);
    }
  }

  lemma StoppedStep(s: State, step: Step)
    requires Inv(s) && Enabled(s, step) && s.shutdown && s.queue == [] && !step.Restart?
    ensures var t := Apply(s, step); t.shutdown && t.queue == [] && t.starts == s.starts && s.cancelled <= t.cancelled
  {
  }

  lemma {:induction false} StaysStopped(workers: nat, states: seq<State>, steps: seq<Step>, i: nat, k: nat)
    requires IsRun(workers, states, steps) && i <= k < |states|
    requires states[i].shutdown && states[i].queue == []
    requires forall m :: i <= m < k ==> !steps[m].Restart?
    ensures states[k].shutdown && states[k].queue == [] && states[k].starts == states[i].starts
    ensures states[i].cancelled <= states[k].cancelled
  {
    if i < k {
      StaysStopped(workers, states, steps, i, k - 1);
      RunInv(workers, states, steps, k - 1);
      hide Inv, Apply;
      StoppedStep(states[k - 1], steps[k - 1]);
    }
  }

  /** The step begins a bounded shutdown, and no restart follows before state `k`. */
  predicate StoppedAt(states: seq<State>, steps: seq<Step>, i: nat, k: nat) {
    && i < k <= |steps| && |states| == |steps| + 1
    && steps[i].ShutdownBounded? && !states[i].shutdown
    && forall m :: i < m < k ==> !steps[m].Restart?
  }

  /** From a bounded shutdown to the next restart the queue is empty and no job starts. */
  lemma NothingStartsAfterStop(workers: nat, states: seq<State>, steps: seq<Step>, i: nat, k: nat)
    requires IsRun(workers, states, steps) && StoppedAt(states, steps, i, k)
    ensures states[k].shutdown && states[k].queue == [] && states[k].starts == states[i].starts
  {
    RunInv(workers, states, steps, i);
    RejectsQueued(states[i]);
    StaysStopped(workers, states, steps, i + 1, k);
  }

  /**
   Every job that a bounded shutdown finds in the queue is rejected and cancelled for good;
   every job it finds running is told to stop and can only finish.
   */
  lemma BoundedShutdownStops(workers: nat, states: seq<State>, steps: seq<Step>, i: nat, k: nat)
    requires IsRun(workers, states, steps) && StoppedAt(states, steps, i, k)
    ensures var s, t := states[i], states[k];
            && (forall j :: 0 <= j < |s.queue| ==>
                  && s.queue[j].id in t.fate && t.fate[s.queue[j].id] == Rejected
                  && s.queue[j].token in t.cancelled)
            && (forall w :: 0 <= w < |s.workers| && s.workers[w].Running? ==>
                  && s.workers[w].job.token in t.cancelled && s.workers[w].job.id in t.fate
                  && (t.fate[s.workers[w].job.id] == RunningOn(w) || t.fate[s.workers[w].job.id].Finished?))
  {
    var s, t := states[i], states[k];
    RunInv(workers, states, steps, i);
    RejectsQueued(s);
    StaysStopped(workers, states, steps, i + 1, k);
    hide Apply, IsRun;
    forall j | 0 <= j < |s.queue| ensures s.queue[j].id in t.fate && t.fate[s.queue[j].id] == Rejected
    {
      EndsOnce(workers, states, steps, i + 1, k, s.queue[j].id);
    }
    forall w | 0 <= w < |s.workers| && s.workers[w].Running?
      ensures s.workers[w].job.id in t.fate
      ensures t.fate[s.workers[w].job.id] == RunningOn(w) || t.fate[s.workers[w].job.id].Finished?
    {
      EndsOnce(workers, states, steps, i, k, s.workers[w].job.id);
    }
  }
}
