/**
 Which job is meant: what a submission stores, what a worker runs, what an expiry retires
 and what the bounded shutdown counts, in terms of the kind and the token handed in.
 */
module SchedulerJobs {
  import opened Counting
  import opened SchedulerModel
  import opened SchedulerProofs
  import opened SchedulerTheorems

  // ------------------------------------------------------------------ admission

  /** There is room for a submission: four slots a worker, one of them kept from images. */
  predicate HasRoom(s: State, kind: Kind) {
    !s.shutdown && |s.queue| < (if kind == Image then 3 * |s.workers| else 4 * |s.workers|)
  }

  /**
   A submission that has not expired is stored exactly while there is room, at the end of
   the queue, with its kind and its token; any other changes nothing.
   */
  lemma StoredExactlyWithRoom(s: State, kind: Kind, token: Token, expired: bool)
    ensures var t := Apply(s, Enqueue(kind, token, expired));
            if !expired && HasRoom(s, kind)
            then t.queue == s.queue + [Job(s.accepted, kind, token)] && t.accepted == s.accepted + 1
                 && t.owedOne == s.owedOne + 1 && t.fate == s.fate[s.accepted := Queued]
            else t == s
  {
  }

  // ----------------------------------------------------------------- retirement

  /** The first job with the token goes, nothing else does, and only its fate changes. */
  lemma RetiresFirstWithToken(s: State, token: Token, j: nat)
    requires j < |s.queue| && s.queue[j].token == token
    requires forall i :: 0 <= i < j ==> s.queue[i].token != token
    ensures var t := Apply(s, Retire(token));
            && t.queue == s.queue[..j] + s.queue[j + 1..]
            && t.fate == s.fate[s.queue[j].id := Retired]
            && t.workers == s.workers && t.owedAll == s.owedAll + 1
  {
    FirstIndexIs(s.queue, CarriesToken(token), j);
  }

  lemma RetiresNothingElse(s: State, token: Token)
    requires forall i :: 0 <= i < |s.queue| ==> s.queue[i].token != token
    ensures Apply(s, Retire(token)) == s
  {
    FirstIndexIs(s.queue, CarriesToken(token), |s.queue|);
  }

  // -------------------------------------------------------- a job over its whole life

  /** Wherever a job with this id is, it is this job. */
  ghost predicate Kept(s: State, job: Job) {
    && job.id < s.accepted
    && (forall k :: 0 <= k < |s.queue| && s.queue[k].id == job.id ==> s.queue[k] == job)
    && (forall i :: 0 <= i < |s.workers| && s.workers[i].Running? && s.workers[i].job.id == job.id ==>
          s.workers[i].job == job)
    && (forall n :: 0 <= n < |s.starts| && s.starts[n].id == job.id ==> s.starts[n] == job)
  }

  lemma KeptQuiet(s: State, step: Step, job: Job)
    requires LifeInv(s) && Kept(s, job) && Enabled(s, step) && MovesNoJob(step)
    ensures Kept(Apply(s, step), job)
  {
    QuietStep(s, step);
    hide Apply, Enabled;
    var t := Apply(s, step);
    forall i | 0 <= i < |t.workers| && t.workers[i].Running? && t.workers[i].job.id == job.id
      ensures t.workers[i].job == job
    {
      assert SameJob(s.workers[i], t.workers[i]);
    }
  }

  lemma KeptTurn(s: State, i: nat, job: Job)
    requires Kept(s, job) && Enabled(s, Turn(i))
    ensures Kept(Apply(s, Turn(i)), job)
  {
  }

  lemma KeptMoves(s: State, step: Step, job: Job)
    requires Kept(s, job) && Enabled(s, step)
    requires step.Enqueue? || step.Finish? || step.Retire? || step.ShutdownBounded?
    ensures Kept(Apply(s, step), job)
  {
  }

  lemma KeptStep(s: State, step: Step, job: Job)
    requires LifeInv(s) && Kept(s, job) && Enabled(s, step)
    ensures Kept(Apply(s, step), job)
  {
    hide Kept, LifeInv;
    if MovesNoJob(step) {
      KeptQuiet(s, step, job);
    } else if step.Turn? {
      KeptTurn(s, step.worker, job);
    } else {
      KeptMoves(s, step, job);
    }
  }

  /** Step `n` accepts `job`. */
  predicate Accepts(states: seq<State>, steps: seq<Step>, n: nat, job: Job) {
    && n < |steps| && |states| == |steps| + 1
    && steps[n] == Enqueue(job.kind, job.token, false) && HasRoom(states[n], job.kind)
    && job.id == states[n].accepted
  }

  lemma AcceptedIsKept(s: State, job: Job)
    requires Inv(s) && HasRoom(s, job.kind) && job.id == s.accepted
    ensures Kept(Apply(s, Enqueue(job.kind, job.token, false)), job)
  {
    StoredExactlyWithRoom(s, job.kind, job.token, false);
    NewIdIsNew(s);
  }

  lemma NewIdIsNew(s: State)
    requires Inv(s)
    ensures forall k :: 0 <= k < |s.queue| ==> s.queue[k].id != s.accepted
    ensures forall i :: 0 <= i < |s.workers| && s.workers[i].Running? ==> s.workers[i].job.id != s.accepted
    ensures forall n :: 0 <= n < |s.starts| ==> s.starts[n].id != s.accepted
  {
    forall n | 0 <= n < |s.starts| ensures s.starts[n].id != s.accepted
    {
      assert Started(s.fate, s.starts[n].id);
    }
  }

  /** What a worker takes, runs and starts under a job's id is what was submitted, kind and token. */
  lemma {:induction false} RunsWhatWasSubmitted(workers: nat, states: seq<State>, steps: seq<Step>, n: nat, k: nat,
                                                job: Job)
    requires IsRun(workers, states, steps) && n < k < |states| && Accepts(states, steps, n, job)
    ensures Kept(states[k], job)
  {
    hide Apply, Enabled, Inv, Kept, LifeInv, HasRoom;
    RunInv(workers, states, steps, k - 1);
    if k == n + 1 {
      AcceptedIsKept(states[n], job);
    } else {
      RunsWhatWasSubmitted(workers, states, steps, n, k - 1, job);
      InvHasLife(states[k - 1]);
      KeptStep(states[k - 1], steps[k - 1], job);
    }
  }

  lemma InvHasLife(s: State)
    requires Inv(s)
    ensures LifeInv(s) && FateInv(s.queue, s.workers, s.fate)
  {
  }

  lemma RetireRetires(s: State, token: Token, job: Job)
    requires Kept(s, job) && job.id in s.fate && !s.fate[job.id].Retired?
    requires var f := Apply(s, Retire(token)).fate; job.id in f && f[job.id].Retired?
    ensures job.token == token
  {
    var k := FirstIndex(s.queue, CarriesToken(token));
    if k < |s.queue| {
      RetiresFirstWithToken(s, token, k);
      assert s.queue[k].id == job.id;
    }
  }

  lemma OthersRetireNothing(s: State, step: Step, id: nat)
    requires Enabled(s, step) && !MovesNoJob(step) && !step.Retire? && id in s.fate && !s.fate[id].Retired?
    ensures id in Apply(s, step).fate ==> !Apply(s, step).fate[id].Retired?
  {
  }

  /** A step that makes a job retired is the expiry of its own token. */
  lemma RetiringStep(s: State, step: Step, job: Job)
    requires Inv(s) && Kept(s, job) && Enabled(s, step) && job.id in s.fate
    requires job.id in Apply(s, step).fate && Apply(s, step).fate[job.id].Retired? && !s.fate[job.id].Retired?
    ensures step == Retire(job.token)
  {
    hide Kept, Inv, Apply, Enabled;
    if step.Retire? {
      RetireRetires(s, step.token, job);
    } else if MovesNoJob(step) {
      InvHasLife(s);
      QuietStep(s, step);
    } else {
      OthersRetireNothing(s, step, job.id);
    }
  }

  /** Some step between the two states expires the token. */
  ghost predicate Expired(steps: seq<Step>, n: nat, k: nat, token: Token) {
    exists m :: n < m < k && m < |steps| && steps[m] == Retire(token)
  }

  /** Over any run, an accepted job is retired only by the expiry of its own token. */
  lemma {:induction false} RetiredOnlyByItsToken(workers: nat, states: seq<State>, steps: seq<Step>, n: nat, k: nat,
                                                 job: Job)
    requires IsRun(workers, states, steps) && n < k < |states| && Accepts(states, steps, n, job)
    ensures job.id in states[k].fate
    ensures states[k].fate[job.id].Retired? ==> Expired(steps, n, k, job.token)
  {
    hide Apply, Enabled, Inv, Kept, HasRoom, Init, IsRun;
    OneStep(workers, states, steps, k - 1);
    RunInv(workers, states, steps, k - 1);
    if k == n + 1 {
      StoredAsQueued(states[n], job);
    } else {
      RetiredOnlyByItsToken(workers, states, steps, n, k - 1, job);
      RunsWhatWasSubmitted(workers, states, steps, n, k - 1, job);
      EndsOnce(workers, states, steps, k - 1, k, job.id);
      if states[k].fate[job.id].Retired? && !states[k - 1].fate[job.id].Retired? {
        RetiringStep(states[k - 1], steps[k - 1], job);
      }
    }
  }

  lemma StoredAsQueued(s: State, job: Job)
    requires HasRoom(s, job.kind) && job.id == s.accepted
    ensures var t := Apply(s, Enqueue(job.kind, job.token, false)); job.id in t.fate && t.fate[job.id] == Queued
  {
    StoredExactlyWithRoom(s, job.kind, job.token, false);
  }

  // ---------------------------------------------------------------- taking a job

  /** Half the workers may run images, or the only one. */
  predicate ImageRoom(s: State) {
    if |s.workers| > 1 then s.activeImages < |s.workers| / 2 else s.activeImages < 1
  }

  predicate Fits(s: State, k: nat)
    requires k < |s.queue|
  {
    s.queue[k].kind == Image ==> ImageRoom(s)
  }

  /** A worker takes the first job that fits; images without room are passed over, nothing else is. */
  lemma TakesFirstThatFits(s: State, i: nat, k: nat)
    requires Enabled(s, Turn(i)) && k < |s.queue| && Fits(s, k)
    requires forall j :: 0 <= j < k ==> !Fits(s, j)
    ensures var t, job := Apply(s, Turn(i)), s.queue[k];
            && t.queue == s.queue[..k] + s.queue[k + 1..] && t.starts == s.starts + [job]
            && t.workers == s.workers[i := Running(job)] && t.fate == s.fate[job.id := RunningOn(i)]
            && t.activeImages == s.activeImages + if job.kind == Image then 1 else 0
  {
    forall j | 0 <= j < k ensures !CanStart(Room(s))(s.queue[j]) {
      assert !Fits(s, j);
    }
    FirstIndexIs(s.queue, CanStart(Room(s)), k);
  }

  /** With nothing that fits it sleeps, unless the queue is empty for good. */
  lemma SleepsWhenNothingFits(s: State, i: nat)
    requires Enabled(s, Turn(i)) && forall j :: 0 <= j < |s.queue| ==> !Fits(s, j)
    ensures Apply(s, Turn(i)) ==
            if s.shutdown && |s.queue| == 0 then s.(workers := s.workers[i := Exited], done := s.done[i := true])
            else s.(workers := s.workers[i := Sleeping])
  {
    forall j | 0 <= j < |s.queue| ensures !CanStart(Room(s))(s.queue[j]) {
      assert !Fits(s, j);
    }
    FirstIndexIs(s.queue, CanStart(Room(s)), |s.queue|);
  }

  // ----------------------------------------------------------- closing, reopening

  /** Either shutdown closes an open scheduler; the draining one leaves the queue as it is. */
  lemma ShutdownCloses(s: State, step: Step)
    requires Enabled(s, step) && (step.ShutdownDrain? || step.ShutdownBounded?)
    ensures var t := Apply(s, step);
            && t.shutdown && t.workers == s.workers && t.starts == s.starts && t.accepted == s.accepted
            && (s.shutdown ==> t == s)
            && (!s.shutdown ==> t.owedAll == s.owedAll + 1)
            && (step.ShutdownDrain? ==> t.queue == s.queue && t.fate == s.fate && t.cancelled == s.cancelled)
  {
  }

  /** A restart reopens a scheduler exactly when it was closed and left no worker behind. */
  lemma RestartReopens(s: State)
    requires Enabled(s, Restart)
    ensures var t := Apply(s, Restart);
            && (t.shutdown <==> s.shutdown && s.abandoned != 0)
            && (s.shutdown && s.abandoned == 0 ==> t.phase == Starting(0))
            && (s.shutdown && s.abandoned == 0 ==> forall i :: 0 <= i < |t.done| ==> !t.done[i])
            && (!s.shutdown || s.abandoned != 0 ==> t == s)
            && t.queue == s.queue && t.fate == s.fate && t.workers == s.workers && |t.done| == |s.done|
  {
  }

  /** A thread that cannot be started closes the scheduler again. */
  lemma FailedStartCloses(s: State)
    requires Enabled(s, StartFailed)
    ensures var t := Apply(s, StartFailed); t.shutdown && t.phase.Joining? && t.owedAll == s.owedAll + 1
    ensures forall kind, token, expired :: var t := Apply(s, StartFailed); Apply(t, Enqueue(kind, token, expired)) == t
  {
  }

  predicate StaysClosed(steps: seq<Step>, i: nat, k: nat) {
    i <= k <= |steps| && forall m :: i <= m < k ==> !steps[m].Restart?
  }

  lemma ClosedStep(s: State, step: Step)
    requires LifeInv(s) && Enabled(s, step) && s.shutdown && !step.Restart?
    ensures Apply(s, step).shutdown && Apply(s, step).accepted == s.accepted
  {
  }

  /** From a shutdown to the next restart nothing is accepted. */
  lemma {:induction false} NothingAcceptedWhileClosed(workers: nat, states: seq<State>, steps: seq<Step>,
                                                      i: nat, k: nat)
    requires IsRun(workers, states, steps) && StaysClosed(steps, i, k) && states[i].shutdown
    ensures states[k].shutdown && states[k].accepted == states[i].accepted
  {
    if i < k {
      hide Apply, Enabled, Inv;
      NothingAcceptedWhileClosed(workers, states, steps, i, k - 1);
      RunInv(workers, states, steps, k - 1);
      InvHasLife(states[k - 1]);
      ClosedStep(states[k - 1], steps[k - 1]);
    }
  }

  // ------------------------------------------------------------ abandoned workers

  function Remaining(ws: seq<Worker>, n: nat): nat
    requires n <= |ws|
  {
    if n == 0 then 0 else Remaining(ws, n - 1) + if ws[n - 1].Gone? then 0 else 1
  }

  predicate Unjoined(ws: seq<Worker>, from: nat) {
    forall i :: from <= i < |ws| ==> !ws[i].Gone?
  }

  /** While a bounded shutdown judges its workers, what it counts is those it could not join. */
  predicate Judged(s: State) {
    && (s.phase.Stopping? ==> Unjoined(s.workers, 0))
    && (s.phase.Judging? ==>
          && s.phase.next <= |s.workers| && Unjoined(s.workers, s.phase.next)
          && s.phase.abandoned == Remaining(s.workers, s.phase.next))
  }

  lemma {:induction false} SameRemaining(a: seq<Worker>, b: seq<Worker>, n: nat)
    requires n <= |a| == |b| && forall i :: 0 <= i < n ==> a[i].Gone? == b[i].Gone?
    ensures Remaining(a, n) == Remaining(b, n)
  {
    if n > 0 { SameRemaining(a, b, n - 1); }
  }

  predicate SameJoined(a: seq<Worker>, b: seq<Worker>) {
    |a| == |b| && forall i :: 0 <= i < |a| ==> a[i].Gone? == b[i].Gone?
  }

  predicate Joins(step: Step) { step.JoinAll? || step.Judge? || step.StartWorker? }

  lemma NobodyVanishes(s: State, step: Step)
    requires Enabled(s, step) && !Joins(step)
    ensures SameJoined(s.workers, Apply(s, step).workers)
  {
  }

  lemma JudgeCounts(s: State)
    requires LifeInv(s) && Judged(s) && Enabled(s, Judge)
    ensures Judged(Apply(s, Judge))
  {
    var t := Apply(s, Judge);
    SameRemaining(s.workers, t.workers, s.phase.next);
  }

  lemma PhaseMoves(s: State, step: Step)
    requires LifeInv(s) && Enabled(s, step) && !Joins(step)
    ensures var p := Apply(s, step).phase;
            && (p.Stopping? ==> s.phase.Stopping? || (s.phase.Settled? && !s.shutdown))
            && (p.Judging? ==> p == s.phase || (s.phase.Stopping? && p == Judging(0, 0)))
  {
  }

  lemma JudgedStep(s: State, step: Step)
    requires LifeInv(s) && Judged(s) && Enabled(s, step)
    ensures Judged(Apply(s, step))
  {
    if step.Judge? {
      JudgeCounts(s);
    } else if !Joins(step) {
      NobodyVanishes(s, step);
      PhaseMoves(s, step);
      hide Apply, Enabled;
      var t := Apply(s, step);
      if t.phase.Judging? && t.phase == s.phase { SameRemaining(s.workers, t.workers, s.phase.next); }
    }
  }

  lemma {:induction false} JudgedRun(workers: nat, states: seq<State>, steps: seq<Step>, k: nat)
    requires IsRun(workers, states, steps) && k < |states|
    ensures Judged(states[k])
  {
    if k > 0 {
      hide Apply, Enabled, Inv, Judged;
      JudgedRun(workers, states, steps, k - 1);
      RunInv(workers, states, steps, k - 1);
      InvHasLife(states[k - 1]);
      JudgedStep(states[k - 1], steps[k - 1]);
    }
  }

  /** A worker whose thread is done is joined; any other is left behind and counted. */
  lemma JudgesByDone(s: State)
    requires Enabled(s, Judge)
    ensures var t, i := Apply(s, Judge), s.phase.next;
            && t.workers == (if s.done[i] then s.workers[i := Gone] else s.workers)
            && t.phase == Judging(i + 1, s.phase.abandoned + if s.done[i] then 0 else 1)
            && t.queue == s.queue && t.fate == s.fate && t.shutdown == s.shutdown
  {
  }

  /** A bounded shutdown reports exactly the workers it left behind. */
  lemma AbandonedIsCounted(workers: nat, states: seq<State>, steps: seq<Step>, k: nat)
    requires IsRun(workers, states, steps) && k < |steps| && steps[k].JudgeEnd?
    ensures states[k + 1].abandoned == Remaining(states[k + 1].workers, |states[k + 1].workers|)
  {
    JudgedRun(workers, states, steps, k);
  }

  // ------------------------------------------------------------------ cancellation

  /** Only the bounded shutdown sets flags, and only those of the jobs it finds. */
  lemma CancelsOnlyWhatItFinds(s: State, step: Step)
    requires Enabled(s, step)
    ensures s.cancelled <= Apply(s, step).cancelled
    ensures forall token :: token in Apply(s, step).cancelled && token !in s.cancelled ==>
              && step.ShutdownBounded?
              && (|| (exists j :: 0 <= j < |s.queue| && s.queue[j].token == token)
                  || (exists i :: 0 <= i < |s.workers| && s.workers[i].Running? && s.workers[i].job.token == token))
  {
  }
}
