/**
 One submission with a deadline: the submitter, the worker, the watchdog and a bounded
 shutdown compete for its promise. One atomic operation on the claim flag, or one use of
 the promise, is one step.
 */
module Submission {

  /** What a promise can be settled with. */
  datatype Result = Pending | FromJob(ok: bool) | QueueFull | ShutDown | Deadline | Overload

  /** Where the job stands, in whose hands it is, and what they are about to do. */
  datatype Job =
    | Unsubmitted
    | Queued
    | AtGate             // taken by a worker, deadline not yet checked
    | Running
    | Ended(ok: bool)    // the function is over, the claim not yet tried
    | Delivering(ok: bool)
    | Refused            // not stored, the claim not yet tried
    | Refusing
    | Rejected           // taken out by a bounded shutdown, the claim not yet tried
    | Rejecting
    | Over

  datatype Watch =
    | Unarmed
    | Armed
    | Won        // the watchdog won the claim, the action is not yet queued
    | Waiting    // the action is in the executor queue, which is drained even on stop
    | Acted      // the action has settled the promise, the job not yet retired
    | Dropped    // nothing of the entry is left

  datatype State = State(
    started: bool,   // history: the function was called
    claimed: bool, job: Job, watch: Watch, result: Result,
    settled: nat)    // history: how often the promise was settled

  /**
   `WatchdogDrops` is the end of an entry that is not in the executor queue when the watchdog
   is destroyed: in the map, or in the hand of a timer that finds the queue closed.
   */
  datatype Step =
    | Arm(wanted: bool, admitted: bool)
    | Enqueue(stored: bool)
    | RefuseClaim | RefuseSettle
    | Take | Gate | Return(ok: bool) | WorkerClaim | WorkerSettle
    | TimerClaim | Deliver | Act | Retire | WatchdogDrops
    | ShutdownTakes | RejectClaim | RejectSettle

  const INIT: State := State(false, false, Unsubmitted, Unarmed, Pending, 0)

  predicate Enabled(s: State, step: Step) {
    match step
    case Arm(_, _) => s.job.Unsubmitted? && s.watch.Unarmed?
    case Enqueue(_) => s.job.Unsubmitted?
    case RefuseClaim => s.job.Refused?
    case RefuseSettle => s.job.Refusing?
    case Take => s.job.Queued?
    case Gate => s.job.AtGate?
    case Return(_) => s.job.Running?
    case WorkerClaim => s.job.Ended?
    case WorkerSettle => s.job.Delivering?
    case TimerClaim => s.watch.Armed?
    case Deliver => s.watch.Won?
    case Act => s.watch.Waiting?
    case Retire => s.watch.Acted?
    case WatchdogDrops => s.watch.Armed? || s.watch.Won?
    case ShutdownTakes => s.job.Queued?
    case RejectClaim => s.job.Rejected?
    case RejectSettle => s.job.Rejecting?
  }

  function Settle(s: State, result: Result): State {
    s.(result := result, settled := s.settled + 1)
  }

  /** A winner other than the timer cancels the armed entry before it settles. */
  function Cancelled(w: Watch): Watch { if w.Armed? then Dropped else w }

  function Apply(s: State, step: Step): State
    requires Enabled(s, step)
  {
    match step
    case Arm(wanted, admitted) =>
      if !wanted then s
      else if admitted then s.(watch := Armed)
      else Settle(s.(job := Over), Overload)
    case Enqueue(stored) =>
      if s.claimed then s.(job := Over) else s.(job := if stored then Queued else Refused)
    case RefuseClaim => if s.claimed then s.(job := Over) else s.(claimed := true, job := Refusing)
    case RefuseSettle => Settle(s.(job := Over, watch := Cancelled(s.watch)), QueueFull)
    case Take => s.(job := AtGate)
    case Gate =>
      if !s.watch.Unarmed? && s.claimed then s.(job := Over) else s.(job := Running, started := true)
    case Return(ok) => s.(job := Ended(ok))
    case WorkerClaim => if s.claimed then s.(job := Over) else s.(claimed := true, job := Delivering(s.job.ok))
    case WorkerSettle => Settle(s.(job := Over, watch := Cancelled(s.watch)), FromJob(s.job.ok))
    case TimerClaim => if s.claimed then s.(watch := Dropped) else s.(claimed := true, watch := Won)
    case Deliver => s.(watch := Waiting)
    case Act => Settle(s.(watch := Acted), Deadline)
    case Retire => s.(watch := Dropped, job := if s.job.Queued? then Over else s.job)
    case WatchdogDrops => s.(watch := Dropped)
    case ShutdownTakes => s.(job := Rejected)
    case RejectClaim => if s.claimed then s.(job := Over) else s.(claimed := true, job := Rejecting)
    case RejectSettle => Settle(s.(job := Over, watch := Cancelled(s.watch)), ShutDown)
  }

  // ---------------------------------------------------------------- the claim decides

  /** The parties that have won the claim and not yet settled the promise. */
  predicate JobOwes(s: State) { s.job.Refusing? || s.job.Rejecting? || s.job.Delivering? }

  predicate WatchOwes(s: State) { s.watch.Won? || s.watch.Waiting? }

  predicate Inv(s: State) {
    && s.settled <= 1
    && (s.settled == 0 <==> s.result == Pending)
    && (s.result == Overload ==> s.job.Over? && s.watch.Unarmed? && !s.claimed)
    && (s.result != Pending && s.result != Overload ==> s.claimed)
    && !(JobOwes(s) && WatchOwes(s))
    && (JobOwes(s) || WatchOwes(s) ==> s.claimed && s.result == Pending)
    && (s.watch.Acted? ==> s.result == Deadline)
    && (s.job.Over? && s.result == Pending ==> s.claimed)
    && (s.started ==> !s.job.Unsubmitted? && !s.job.Queued? && !s.job.AtGate? && !s.job.Refused? && !s.job.Refusing?
                      && !s.job.Rejected? && !s.job.Rejecting?)
    && (s.job.Running? || s.job.Ended? || s.job.Delivering? ==> s.started)
    && (s.watch.Unarmed? && s.claimed ==> JobOwes(s) || (s.job.Over? && s.result != Pending))
    && (s.watch.Armed? || s.watch.Unarmed? ==> s.result != Deadline)
    && (s.watch.Armed? && s.claimed ==> JobOwes(s))
  }

  lemma StepInv(s: State, step: Step)
    requires Inv(s) && Enabled(s, step)
    ensures Inv(Apply(s, step))
  {
  }

  ghost predicate IsRun(states: seq<State>, steps: seq<Step>) {
    && |states| == |steps| + 1 && states[0] == INIT
    && forall i :: 0 <= i < |steps| ==> Enabled(states[i], steps[i]) && states[i + 1] == Apply(states[i], steps[i])
  }

  lemma {:induction false} RunInv(states: seq<State>, steps: seq<Step>, k: nat)
    requires IsRun(states, steps) && k < |states|
    ensures Inv(states[k])
  {
    if k > 0 {
      RunInv(states, steps, k - 1);
      StepInv(states[k - 1], steps[k - 1]);
      assert states[k] == Apply(states[k - 1], steps[k - 1]);
    }
  }

  /** Whoever wins the claim settles the promise: it is settled at most once, whatever the order of events. */
  lemma SettledAtMostOnce(states: seq<State>, steps: seq<Step>, k: nat)
    requires IsRun(states, steps) && k < |states|
    ensures states[k].settled <= 1
  {
    RunInv(states, steps, k);
  }

  lemma SettledStays(s: State, step: Step)
    requires Inv(s) && Enabled(s, step) && s.result != Pending
    ensures Apply(s, step).result == s.result
  {
  }

  /** A settled promise keeps its result for the rest of the run. */
  lemma {:induction false} ResultIsFinal(states: seq<State>, steps: seq<Step>, i: nat, k: nat)
    requires IsRun(states, steps) && i <= k < |states| && states[i].result != Pending
    ensures states[k].result == states[i].result
  {
    hide Apply, Enabled, Inv;
    if i < k {
      ResultIsFinal(states, steps, i, k - 1);
      RunInv(states, steps, k - 1);
      SettledStays(states[k - 1], steps[k - 1]);
    }
  }

  /** Nobody has anything left to do for this submission. */
  predicate AtRest(s: State) { s.job.Over? && (s.watch.Unarmed? || s.watch.Dropped?) }

  /** The watchdog was destroyed after it had won this claim and before it queued the action. */
  ghost predicate WonAndDropped(states: seq<State>, steps: seq<Step>, k: nat) {
    exists i :: 0 <= i < k && i < |steps| && i < |states| && steps[i].WatchdogDrops? && states[i].watch.Won?
  }

  /** The claim is taken and nobody owes the settlement. */
  predicate Forgotten(s: State) { s.claimed && s.result == Pending && !JobOwes(s) && !WatchOwes(s) }

  lemma ForgottenStep(s: State, step: Step)
    requires Inv(s) && Enabled(s, step)
    ensures Forgotten(Apply(s, step)) <==> Forgotten(s) || (step.WatchdogDrops? && s.watch.Won?)
  {
  }

  lemma StartsOpen()
    ensures !Forgotten(INIT)
  {
  }

  lemma {:induction false} ForgottenWhen(states: seq<State>, steps: seq<Step>, k: nat)
    requires IsRun(states, steps) && k < |states|
    ensures Forgotten(states[k]) <==> WonAndDropped(states, steps, k)
  {
    StartsOpen();
    hide Apply, Enabled, Inv, Forgotten;
    if k > 0 {
      ForgottenWhen(states, steps, k - 1);
      RunInv(states, steps, k - 1);
      ForgottenStep(states[k - 1], steps[k - 1]);
    }
  }

  /**
   A submission at rest has a settled promise, unless the watchdog was destroyed after it
   won the claim and before it queued the action: then, and only then, nobody ever settles
   it. An action that has reached the executor queue still runs.
   */
  lemma NoPromiseForgotten(states: seq<State>, steps: seq<Step>, k: nat)
    requires IsRun(states, steps) && k < |states| && AtRest(states[k])
    ensures states[k].settled == 0 <==> WonAndDropped(states, steps, k)
  {
    hide WonAndDropped;
    RunInv(states, steps, k);
    ForgottenWhen(states, steps, k);
  }

  /** A run that ends with nobody left to settle the promise: armed, queued, won, dropped, skipped. */
  lemma PromiseCanBeForgotten() returns (states: seq<State>, steps: seq<Step>)
    ensures IsRun(states, steps) && AtRest(states[|steps|]) && states[|steps|].settled == 0
  {
    steps := [Arm(true, true), Enqueue(true), TimerClaim, WatchdogDrops, Take, Gate];
    var a := Apply(INIT, steps[0]);
    var b := Apply(a, steps[1]);
    var c := Apply(b, steps[2]);
    var d := Apply(c, steps[3]);
    var e := Apply(d, steps[4]);
    states := [INIT, a, b, c, d, e, Apply(e, steps[5])];
  }

  /** While the promise is open and not forgotten, someone can act. */
  lemma OpenPromiseMoves(states: seq<State>, steps: seq<Step>, k: nat)
    requires IsRun(states, steps) && k < |states|
    requires states[k].result == Pending && !(states[k].job.Over? && states[k].watch.Dropped?)
    ensures exists step :: Enabled(states[k], step)
  {
    RunInv(states, steps, k);
    var s := states[k];
    if s.job.Over? {
      assert s.watch.Won? || s.watch.Waiting?;
      assert Enabled(s, if s.watch.Won? then Deliver else Act);
    } else {
      var step := match s.job
        case Unsubmitted => Enqueue(true)
        case Queued => Take
        case AtGate => Gate
        case Running => Return(true)
        case Ended(_) => WorkerClaim
        case Delivering(_) => WorkerSettle
        case Refused => RefuseClaim
        case Refusing => RefuseSettle
        case Rejected => RejectClaim
        case _ => RejectSettle;
      assert Enabled(s, step);
    }
  }

  lemma UnstartedStep(s: State, step: Step)
    requires Inv(s) && Enabled(s, step) && s.claimed && !s.started
    ensures Apply(s, step).claimed && !Apply(s, step).started
  {
  }

  /** A job whose deadline fired before it started never starts. */
  lemma {:induction false} ExpiredNeverStarts(states: seq<State>, steps: seq<Step>, i: nat, k: nat)
    requires IsRun(states, steps) && i <= k < |states|
    requires states[i].claimed && !states[i].started
    ensures states[k].claimed && !states[k].started
  {
    hide Apply, Enabled, Inv;
    if i < k {
      ExpiredNeverStarts(states, steps, i, k - 1);
      RunInv(states, steps, k - 1);
      UnstartedStep(states[k - 1], steps[k - 1]);
    }
  }

  /** The claim is taken, and by nobody who could still deliver anything but the deadline. */
  predicate DeadlineDecided(s: State) {
    && s.claimed && (s.result == Pending || s.result == Deadline)
    && !s.job.Delivering? && !s.job.Refusing? && !s.job.Rejecting?
  }

  lemma DecidedStep(s: State, step: Step)
    requires Inv(s) && Enabled(s, step) && DeadlineDecided(s)
    ensures DeadlineDecided(Apply(s, step))
  {
  }

  lemma WonIsDecided(s: State)
    requires Inv(s) && s.watch.Won?
    ensures DeadlineDecided(s)
  {
  }

  /** Once the timer has won, nothing but the deadline is ever delivered, whatever the job returns. */
  lemma {:induction false} DeadlineWins(states: seq<State>, steps: seq<Step>, i: nat, k: nat)
    requires IsRun(states, steps) && i <= k < |states| && states[i].watch.Won?
    ensures DeadlineDecided(states[k])
  {
    hide Apply, Enabled, Inv, DeadlineDecided;
    if i == k {
      RunInv(states, steps, k);
      WonIsDecided(states[k]);
    } else {
      DeadlineWins(states, steps, i, k - 1);
      RunInv(states, steps, k - 1);
      DecidedStep(states[k - 1], steps[k - 1]);
    }
  }

  // ------------------------------------------------------------ what a result means

  /** What the winner of the claim will settle the promise with. */
  predicate Decided(s: State, r: Result) {
    && s.claimed && (s.result == Pending || s.result == r)
    && (s.job.Delivering? ==> r == FromJob(s.job.ok))
    && (s.job.Refusing? ==> r == QueueFull)
    && (s.job.Rejecting? ==> r == ShutDown)
    && (WatchOwes(s) ==> r == Deadline)
  }

  /** What the party that takes this step competes for. */
  function Prize(s: State, step: Step): Result {
    match step
    case WorkerClaim => if s.job.Ended? then FromJob(s.job.ok) else Pending
    case RefuseClaim => QueueFull
    case RejectClaim => ShutDown
    case TimerClaim => Deadline
    case _ => Pending
  }

  predicate Claims(step: Step) { step.WorkerClaim? || step.RefuseClaim? || step.RejectClaim? || step.TimerClaim? }

  lemma WinnerIsDecided(s: State, step: Step)
    requires Inv(s) && Enabled(s, step) && Claims(step) && !s.claimed
    ensures Decided(Apply(s, step), Prize(s, step))
  {
  }

  lemma DecidedStays(s: State, step: Step, r: Result)
    requires Inv(s) && Enabled(s, step) && Decided(s, r)
    ensures Decided(Apply(s, step), r)
  {
  }

  /** The first to claim decides the result: from then on the promise is open or holds the winner's answer. */
  lemma {:induction false} WinnerDecides(states: seq<State>, steps: seq<Step>, i: nat, k: nat)
    requires IsRun(states, steps) && i < k < |states| && Claims(steps[i]) && !states[i].claimed
    ensures states[k].claimed && Decided(states[k], Prize(states[i], steps[i]))
  {
    hide Apply, Enabled, Inv, Prize;
    RunInv(states, steps, k - 1);
    if k == i + 1 {
      WinnerIsDecided(states[i], steps[i]);
    } else {
      WinnerDecides(states, steps, i, k - 1);
      hide Decided;
      DecidedStays(states[k - 1], steps[k - 1], Prize(states[i], steps[i]));
      DecidedIsClaimed(states[k], Prize(states[i], steps[i]));
    }
  }

  lemma DecidedIsClaimed(s: State, r: Result)
    requires Decided(s, r)
    ensures s.claimed
  {
  }

  predicate Did(steps: seq<Step>, k: nat, step: Step) {
    exists m :: 0 <= m < k && m < |steps| && steps[m] == step
  }

  /** Every stage of the job was brought about by its own event. */
  predicate JobHasCause(job: Job, steps: seq<Step>, k: nat) {
    && (job.Queued? || job.AtGate? || job.Running? ==> Did(steps, k, Enqueue(true)))
    && (job.Ended? || job.Delivering? ==> Did(steps, k, Enqueue(true)) && Did(steps, k, Return(job.ok)))
    && (job.Refused? || job.Refusing? ==> Did(steps, k, Enqueue(false)))
    && (job.Rejected? || job.Rejecting? ==> Did(steps, k, Enqueue(true)) && Did(steps, k, ShutdownTakes))
  }

  /** And so was every stage of the deadline. */
  predicate WatchHasCause(watch: Watch, steps: seq<Step>, k: nat) {
    && (!watch.Unarmed? ==> Did(steps, k, Arm(true, true)))
    && (watch.Won? || watch.Waiting? || watch.Acted? ==> Did(steps, k, TimerClaim))
  }

  predicate ResultHasCause(result: Result, steps: seq<Step>, k: nat) {
    match result
    case Pending => true
    case FromJob(ok) => Did(steps, k, Enqueue(true)) && Did(steps, k, Return(ok))
    case QueueFull => Did(steps, k, Enqueue(false))
    case ShutDown => Did(steps, k, Enqueue(true)) && Did(steps, k, ShutdownTakes)
    case Deadline => Did(steps, k, Arm(true, true)) && Did(steps, k, TimerClaim)
    case Overload => Did(steps, k, Arm(true, false))
  }

  predicate HasCause(s: State, steps: seq<Step>, k: nat) {
    JobHasCause(s.job, steps, k) && WatchHasCause(s.watch, steps, k) && ResultHasCause(s.result, steps, k)
  }

  lemma DidMore(steps: seq<Step>, k: nat)
    requires k < |steps|
    ensures forall step :: Did(steps, k, step) ==> Did(steps, k + 1, step)
    ensures Did(steps, k + 1, steps[k])
  {
    assert steps[k] == steps[k];
  }

  lemma JobCauseStep(s: State, steps: seq<Step>, k: nat)
    requires k < |steps| && Enabled(s, steps[k]) && JobHasCause(s.job, steps, k)
    ensures JobHasCause(Apply(s, steps[k]).job, steps, k + 1)
  {
    DidMore(steps, k);
    hide Did;
  }

  lemma WatchCauseStep(s: State, steps: seq<Step>, k: nat)
    requires k < |steps| && Enabled(s, steps[k]) && WatchHasCause(s.watch, steps, k)
    ensures WatchHasCause(Apply(s, steps[k]).watch, steps, k + 1)
  {
    DidMore(steps, k);
    hide Did;
  }

  predicate Settles(step: Step) {
    step.Arm? || step.RefuseSettle? || step.WorkerSettle? || step.Act? || step.RejectSettle?
  }

  lemma ResultCauseStep(s: State, steps: seq<Step>, k: nat)
    requires k < |steps| && Enabled(s, steps[k]) && HasCause(s, steps, k) && Settles(steps[k])
    ensures ResultHasCause(Apply(s, steps[k]).result, steps, k + 1)
  {
    DidMore(steps, k);
    hide Did;
  }

  lemma ResultStays(s: State, step: Step)
    requires Enabled(s, step) && !Settles(step)
    ensures Apply(s, step).result == s.result
  {
  }

  lemma ResultCauseStays(result: Result, steps: seq<Step>, k: nat)
    requires k < |steps| && ResultHasCause(result, steps, k)
    ensures ResultHasCause(result, steps, k + 1)
  {
    DidMore(steps, k);
    hide Did;
  }

  lemma HasCauseStep(s: State, steps: seq<Step>, k: nat)
    requires k < |steps| && Enabled(s, steps[k]) && HasCause(s, steps, k)
    ensures HasCause(Apply(s, steps[k]), steps, k + 1)
  {
    hide Apply, Enabled, JobHasCause, WatchHasCause, ResultHasCause;
    JobCauseStep(s, steps, k);
    WatchCauseStep(s, steps, k);
    if Settles(steps[k]) {
      ResultCauseStep(s, steps, k);
    } else {
      ResultStays(s, steps[k]);
      ResultCauseStays(s.result, steps, k);
    }
  }

  lemma NothingYet(steps: seq<Step>)
    ensures HasCause(INIT, steps, 0)
  {
  }

  /**
   A promise holds a job's answer only if the job was stored and gave it, "queue full" only
   if it was not stored, "shut down" only if a shutdown took it, the deadline only if an
   armed timer claimed it, and "overload" only if the timer could not be armed.
   */
  lemma {:induction false} ResultsHaveCauses(states: seq<State>, steps: seq<Step>, k: nat)
    requires IsRun(states, steps) && k < |states|
    ensures HasCause(states[k], steps, k)
  {
    NothingYet(steps);
    if k > 0 {
      hide Apply, Enabled, HasCause;
      ResultsHaveCauses(states, steps, k - 1);
      HasCauseStep(states[k - 1], steps, k - 1);
    }
  }
}
