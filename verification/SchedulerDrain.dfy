/**
 What a finished draining shutdown leaves behind: nothing, unless no worker was started
 since the last restart.
 */
module SchedulerDrain {
  import opened Counting
  import opened SchedulerModel
  import opened SchedulerProofs
  import opened SchedulerTheorems

  /** A restart that takes effect, rather than one that finds the scheduler running or abandoned. */
  predicate Restarts(s: State, step: Step) { step.Restart? && s.shutdown && s.abandoned == 0 }

  /** Some worker thread was started before state `k`, and no restart has taken effect since. */
  ghost predicate StartedSince(states: seq<State>, steps: seq<Step>, k: nat) {
    exists m :: 0 <= m < k && StartedAt(states, steps, m, k)
  }

  ghost predicate StartedAt(states: seq<State>, steps: seq<Step>, m: nat, k: nat) {
    && m < |steps| && steps[m].StartWorker?
    && forall r :: m < r < k && r < |steps| && r < |states| ==> !Restarts(states[r], steps[r])
  }

  /** Every accepted job has finished, or has been retired or rejected. */
  ghost predicate AllEnded(s: State) {
    forall id: nat :: id < s.accepted ==> id in s.fate && Ended(s.fate[id])
  }

  // ------------------------------------------------------------ workers that left

  predicate SomeExited(ws: seq<Worker>) { exists i :: 0 <= i < |ws| && ws[i].Exited? }

  predicate SomePresent(ws: seq<Worker>) { exists i :: 0 <= i < |ws| && !ws[i].Gone? }

  /** A worker leaves only a scheduler that is shut down and has nothing queued. */
  predicate Left(s: State) { SomeExited(s.workers) ==> s.shutdown && s.queue == [] }

  lemma LeftTurn(s: State, i: nat)
    requires Inv(s) && Left(s) && Enabled(s, Turn(i))
    ensures Left(Apply(s, Turn(i)))
  {
    var t := Apply(s, Turn(i));
    assert forall j :: 0 <= j < |t.workers| && j != i ==> t.workers[j] == s.workers[j];
  }

  lemma LeftRest(s: State, step: Step)
    requires LifeInv(s) && Left(s) && Enabled(s, step) && !step.Turn?
    ensures Left(Apply(s, step))
  {
    var t := Apply(s, step);
    if SomeExited(t.workers) {
      var i :| 0 <= i < |t.workers| && t.workers[i].Exited?;
      assert s.workers[i].Exited?;
      assert s.shutdown;
    }
  }

  lemma LeftStep(s: State, step: Step)
    requires Inv(s) && Left(s) && Enabled(s, step)
    ensures Left(Apply(s, step))
  {
    if step.Turn? { LeftTurn(s, step.worker); } else { LeftRest(s, step); }
  }

  lemma {:induction false} LeftRun(workers: nat, states: seq<State>, steps: seq<Step>, k: nat)
    requires IsRun(workers, states, steps) && k < |states|
    ensures Left(states[k])
  {
    if k > 0 {
      hide Inv, Apply, Enabled, Left;
      LeftRun(workers, states, steps, k - 1);
      RunInv(workers, states, steps, k - 1);
      LeftStep(states[k - 1], steps[k - 1]);
    }
  }

  // ------------------------------------------------------- workers that were started

  /** From the start of the threads to the end of the joins of a drain. */
  predicate InSession(s: State) {
    s.phase.Starting? || s.phase.Joining? || (s.phase.Settled? && !s.shutdown)
  }

  /** Within a session a worker that was started does not vanish, and a session begins with a restart. */
  lemma PresentStep(s: State, step: Step)
    requires LifeInv(s) && Enabled(s, step) && !Restarts(s, step) && InSession(Apply(s, step))
    ensures InSession(s)
    ensures SomePresent(s.workers) ==> SomePresent(Apply(s, step).workers)
  {
    var t := Apply(s, step);
    if SomePresent(s.workers) {
      var i :| 0 <= i < |s.workers| && !s.workers[i].Gone?;
      assert !t.workers[i].Gone?;
    }
  }

  lemma StartPresent(s: State)
    requires Enabled(s, StartWorker)
    ensures SomePresent(Apply(s, StartWorker).workers)
  {
    assert !Apply(s, StartWorker).workers[s.phase.next].Gone?;
  }

  lemma {:induction false} StartedIsPresent(workers: nat, states: seq<State>, steps: seq<Step>, m: nat, k: nat)
    requires IsRun(workers, states, steps) && m < k < |states| && StartedAt(states, steps, m, k)
    requires InSession(states[k])
    ensures SomePresent(states[k].workers)
    decreases k
  {
    hide Inv, Apply, Enabled, InSession, SomePresent, Restarts;
    RunInv(workers, states, steps, k - 1);
    InvIsLife(states[k - 1]);
    if k == m + 1 {
      StartPresent(states[m]);
    } else {
      PresentStep(states[k - 1], steps[k - 1]);
      StartedIsPresent(workers, states, steps, m, k - 1);
    }
  }

  lemma InvIsLife(s: State)
    requires Inv(s)
    ensures LifeInv(s) && FateInv(s.queue, s.workers, s.fate) && Numbered(s.fate, s.accepted)
  {
  }

  // -------------------------------------------------------------------- the theorem

  /** With no live worker, all jobs have ended exactly if none is queued. */
  lemma EndedExactlyIfEmpty(s: State)
    requires FateInv(s.queue, s.workers, s.fate) && Numbered(s.fate, s.accepted)
    requires forall i :: 0 <= i < |s.workers| ==> !IsLive(s.workers[i])
    ensures AllEnded(s) <==> s.queue == []
  {
    if s.queue != [] {
      assert s.fate[s.queue[0].id] == Queued;
      assert s.queue[0].id < s.accepted;
    } else {
      forall id: nat | id < s.accepted ensures id in s.fate && Ended(s.fate[id])
      {
        assert s.fate[id].RunningOn? ==> Holds(s.workers, s.fate[id].index, id);
      }
    }
  }

  lemma JoinLeavesJobs(s: State)
    requires Enabled(s, JoinAll)
    ensures var t := Apply(s, JoinAll);
            && t.queue == s.queue && t.fate == s.fate && t.accepted == s.accepted && t.shutdown == s.shutdown
            && forall i :: 0 <= i < |t.workers| ==> t.workers[i].Gone?
  {
  }

  lemma PresentHasExited(s: State)
    requires SomePresent(s.workers) && Enabled(s, JoinAll)
    ensures SomeExited(s.workers) && InSession(s)
  {
    var i :| 0 <= i < |s.workers| && !s.workers[i].Gone?;
    assert s.workers[i].Exited?;
  }

  /**
   When the last worker has been joined, every accepted job has finished, been retired or
   been rejected, exactly unless no worker was started since the last restart and a job
   accepted meanwhile is still queued; it then stays there for the next restart.
   */
  lemma DrainLeavesNothing(workers: nat, states: seq<State>, steps: seq<Step>, k: nat)
    requires IsRun(workers, states, steps) && k < |steps| && steps[k].JoinAll?
    ensures states[k + 1].queue == states[k].queue
    ensures AllEnded(states[k + 1]) <==> StartedSince(states, steps, k) || states[k].queue == []
  {
    var t := states[k + 1];
    RunInv(workers, states, steps, k + 1);
    InvIsLife(t);
    LeftRun(workers, states, steps, k);
    JoinLeavesJobs(states[k]);
    hide Inv, Apply, AllEnded, Numbered, FateInv, LifeInv;
    assert forall i :: 0 <= i < |t.workers| ==> !IsLive(t.workers[i]);
    EndedExactlyIfEmpty(t);
    if StartedSince(states, steps, k) {
      var m :| 0 <= m < k && StartedAt(states, steps, m, k);
      JoiningIsSession(states[k]);
      hide InSession, StartedAt, Enabled;
      StartedIsPresent(workers, states, steps, m, k);
      StartedDrains(states[k]);
    }
  }

  lemma JoiningIsSession(s: State)
    requires Enabled(s, JoinAll)
    ensures InSession(s)
  {
  }

  lemma StartedDrains(s: State)
    requires SomePresent(s.workers) && Enabled(s, JoinAll) && Left(s)
    ensures s.queue == []
  {
    PresentHasExited(s);
  }

  // ----------------------------------------------------------- the other case

  /** One worker: started, drained and joined, restarted, and then no thread to be had. */
  function Plan(i: nat, kind: Kind, token: Token): Step
    requires i < 9
  {
    if i < 5 then [StartWorker, StartEnd, ShutdownDrain, Turn(0), JoinAll][i]
    else [Restart, Enqueue(kind, token, false), StartFailed, JoinAll][i - 5]
  }

  function Stage(i: nat, job: Job): State
    requires i <= 9
  {
    var s := Init(1);
    if i == 0 then s
    else if i == 1 then s.(workers := [Checking], phase := Starting(1))
    else if i == 2 then s.(workers := [Checking], phase := Settled)
    else if i == 3 then s.(workers := [Checking], phase := Joining, shutdown := true, owedAll := 1)
    else if i == 4 then s.(workers := [Exited], done := [true], phase := Joining, shutdown := true, owedAll := 1)
    else if i == 5 then s.(workers := [Gone], done := [true], phase := Settled, shutdown := true, owedAll := 1)
    else if i == 6 then s.(workers := [Gone], done := [false], phase := Starting(0), owedAll := 1)
    else
      var t := s.(workers := [Gone], done := [false], owedAll := 1, queue := [job],
                  fate := map[job.id := Queued], accepted := 1, owedOne := 1);
      if i == 7 then t.(phase := Starting(0))
      else t.(owedAll := 2, shutdown := true, phase := if i == 8 then Joining else Settled)
  }

  lemma StageStarts(job: Job, i: nat)
    requires i < 3
    ensures Enabled(Stage(i, job), Plan(i, job.kind, job.token))
    ensures Stage(i + 1, job) == Apply(Stage(i, job), Plan(i, job.kind, job.token))
  {
  }

  lemma StageDrains(job: Job, i: nat)
    requires 3 <= i < 6
    ensures Enabled(Stage(i, job), Plan(i, job.kind, job.token))
    ensures Stage(i + 1, job) == Apply(Stage(i, job), Plan(i, job.kind, job.token))
  {
  }

  lemma StageStrands(job: Job, i: nat)
    requires 6 <= i < 9 && job.id == 0 && job.kind != Image
    ensures Enabled(Stage(i, job), Plan(i, job.kind, job.token))
    ensures Stage(i + 1, job) == Apply(Stage(i, job), Plan(i, job.kind, job.token))
  {
  }

  /**
   A restart clears the shutdown, a submission is accepted, and the first thread fails to
   start: the job is neither run nor rejected.
   */
  lemma JobCanBeStranded(job: Job) returns (states: seq<State>, steps: seq<Step>)
    requires job.id == 0 && job.kind != Image
    ensures IsRun(1, states, steps) && |steps| == 9 && steps[8].JoinAll?
    ensures states[9].queue == [job] && !AllEnded(states[9])
  {
    states := seq(10, i requires 0 <= i < 10 => Stage(i, job));
    steps := seq(9, i requires 0 <= i < 9 => Plan(i, job.kind, job.token));
    var last := Stage(9, job);
    assert last.queue == [job] && last.accepted == 1 && last.fate[0] == Queued;
    assert Stage(0, job) == Init(1) && Plan(8, job.kind, job.token) == JoinAll;
    hide Stage, Plan, Apply, Enabled, Init;
    forall i | 0 <= i < 9
      ensures Enabled(states[i], steps[i]) && states[i + 1] == Apply(states[i], steps[i])
    {
      if i < 3 { StageStarts(job, i); } else if i < 6 { StageDrains(job, i); } else { StageStrands(job, i); }
    }
  }
}
