/**
 The scheduler object: the fields its mutex protects, one method per lock region.
 Every method is tied to a step of the state machine in SchedulerModel.
 */
module Scheduler {
  import opened Wrappers
  import opened Counting
  import opened SchedulerModel

  /** What the wait loop of a worker decides. */
  datatype Decision = Leave | Sleep | Take(job: Job)

  class RequestScheduler {
    const workerCount: nat
    var queue: seq<Job>
    var shutdown: bool
    var abandonedWorkers: nat
    var activeImageCount: int
    var activeTokens: seq<Option<Token>>
    var workerDone: seq<bool>
    var cancelled: set<Token>  // the cancellation flags that have been set
    var accepted: nat          // numbers the jobs, so that two of them can be told apart

    // Where the threads stand, and the history of the jobs.
    ghost var threads: seq<Worker>
    ghost var phase: Phase
    ghost var owedOne: nat
    ghost var owedAll: nat
    ghost var fate: map<nat, Fate>
    ghost var starts: seq<Job>

    ghost predicate Valid()
      reads this
    {
      && workerCount > 0
      && |threads| == |workerDone| == |activeTokens| == workerCount
      && forall i :: 0 <= i < workerCount ==>
           activeTokens[i] == if threads[i].Running? then Some(threads[i].job.token) else None
    }

    ghost function View(): State
      reads this
    {
      State(queue, shutdown, abandonedWorkers, activeImageCount, threads, workerDone, cancelled,
            phase, owedOne, owedAll, accepted, fate, starts)
    }

    constructor (workers: nat)
      ensures Valid() && workerCount == (if workers == 0 then 1 else workers) && View() == Init(workerCount)
    {
      var n := if workers == 0 then 1 else workers;
      workerCount := n;
      queue, shutdown, abandonedWorkers, activeImageCount := [], false, 0, 0;
      activeTokens, workerDone := seq(n, i => None), seq(n, i => false);
      cancelled := {};
      threads, phase, owedOne, owedAll, accepted := seq(n, i => Gone), Starting(0), 0, 0, 0;
      fate, starts := map[], [];
    }

    /** `expired` is the deadline claim as it reads under the mutex. */
    method EnqueueJob(kind: Kind, token: Token, expired: bool) returns (ok: bool)
      requires Valid()
      modifies this
      ensures Valid() && View() == Apply(old(View()), Enqueue(kind, token, expired))
      ensures ok == (expired || Admits(old(View()), kind))
    {
      if expired { return true; }
      if shutdown || |queue| >= 4 * workerCount { return false; }
      if kind == Image && |queue| >= 4 * workerCount - workerCount { return false; }
      queue := queue + [Job(accepted, kind, token)];
      fate := fate[accepted := Queued];
      accepted := accepted + 1;
      owedOne := owedOne + 1;
      return true;
    }

    /** The first lock region of WorkerLoop, from the wait predicate to taking a job. */
    method WaitRegion(i: nat) returns (decision: Decision)
      requires Valid() && i < workerCount && threads[i].Checking?
      modifies this
      ensures Valid() && View() == Apply(old(View()), Turn(i))
      ensures decision == if old(shutdown) && old(queue) == [] then Leave
                          else if Pick(old(View())) == |old(queue)| then Sleep
                          else Take(old(queue)[Pick(old(View()))])
    {
      if shutdown && queue == [] {
        workerDone := workerDone[i := true];
        threads := threads[i := Exited];
        return Leave;
      }
      var room := activeImageCount < (if workerCount > 1 then workerCount / 2 else 1);
      var k := FindEligible(queue, room);
      if k == |queue| {
        threads := threads[i := Sleeping];
        return Sleep;
      }
      var job := TakeJob(i, k);
      return Take(job);
    }

    method TakeJob(i: nat, k: nat) returns (job: Job)
      requires Valid() && i < workerCount && threads[i].Checking? && k < |queue|
      modifies this
      ensures Valid() && job == old(queue)[k]
      ensures View() == old(View()).(queue := Remove(old(queue), k),
                                     workers := old(threads)[i := Running(job)],
                                     activeImages := old(activeImageCount) + (if job.kind == Image then 1 else 0),
                                     fate := old(fate)[job.id := RunningOn(i)],
                                     starts := old(starts) + [job])
    {
      job := queue[k];
      queue := Remove(queue, k);
      activeTokens := activeTokens[i := Some(job.token)];
      if job.kind == Image { activeImageCount := activeImageCount + 1; }
      threads := threads[i := Running(job)];
      fate := fate[job.id := RunningOn(i)];
      starts := starts + [job];
    }

    /** The second lock region of WorkerLoop; `announce` says that a notify_all must follow. */
    method CompletionRegion(i: nat, job: Job) returns (announce: bool)
      requires Valid() && i < workerCount && threads[i] == Running(job)
      modifies this
      ensures Valid() && View() == Apply(old(View()), Finish(i))
      ensures announce == (job.kind == Image)
    {
      activeTokens := activeTokens[i := None];
      announce := job.kind == Image;
      if announce { activeImageCount := activeImageCount - 1; }
      threads := threads[i := if announce then Notifying else Checking];
      fate := fate[job.id := Finished];
    }

    method RetireExpiredJob(token: Token) returns (retired: Option<Job>)
      requires Valid()
      modifies this
      ensures Valid() && View() == Apply(old(View()), Retire(token))
      ensures var k := FirstIndex(old(queue), CarriesToken(token));
              retired == if k == |old(queue)| then None else Some(old(queue)[k])
      ensures forall j: nat :: FirstCarrier(old(queue), token, j) ==>
                && retired == Some(old(queue)[j])
                && queue == old(queue)[..j] + old(queue)[j + 1..]
                && fate == old(fate)[old(queue)[j].id := Retired]
      ensures (forall i :: 0 <= i < |old(queue)| ==> old(queue)[i].token != token) ==>
                retired == None && View() == old(View())
    {
      var k := FindToken(queue, token);
      if k == |queue| { return None; }
      OneFirstCarrier(queue, token, k);
      retired := Some(queue[k]);
      fate := fate[queue[k].id := Retired];
      queue := Remove(queue, k);
      owedAll := owedAll + 1;
    }

    /** The lock region of the draining Shutdown; `first` is false for a repeated call. */
    method BeginShutdown() returns (first: bool)
      requires Valid() && phase.Settled?
      modifies this
      ensures Valid() && View() == Apply(old(View()), ShutdownDrain) && first == !old(shutdown)
    {
      if shutdown { return false; }
      shutdown := true;
      owedAll := owedAll + 1;
      phase := Joining;
      return true;
    }

    /** The first lock region of the bounded Shutdown. */
    method BeginBoundedShutdown() returns (rejected: seq<Job>)
      requires Valid() && phase.Settled?
      modifies this
      ensures Valid() && View() == Apply(old(View()), ShutdownBounded)
      ensures rejected == if old(shutdown) then [] else old(queue)
    {
      if shutdown { return []; }
      rejected := StopAndReject();
    }

    method StopAndReject() returns (rejected: seq<Job>)
      requires Valid()
      modifies this
      ensures Valid() && View() == RejectAll(old(View())) && rejected == old(queue)
    {
      var running := FlagsOfRunning(activeTokens, threads);
      var waiting := FlagsOfQueued(queue);
      cancelled := cancelled + running + waiting;
      rejected := queue;
      queue := [];
      fate := Condemn(fate, QueuedIds(rejected));
      shutdown := true;
      owedAll := owedAll + 1;
      phase := Stopping;
    }

    /** The closing loop of the bounded Shutdown, for worker `i`: join it or abandon it. */
    method JudgeWorker(i: nat) returns (completed: bool)
      requires Valid() && phase.Judging? && phase.next == i < workerCount
      requires workerDone[i] ==> !threads[i].Running?
      modifies this
      ensures Valid() && View() == Apply(old(View()), Judge) && completed == old(workerDone)[i]
    {
      completed := workerDone[i];
      if completed { threads := threads[i := Gone]; }
      phase := Judging(i + 1, if completed then phase.abandoned else phase.abandoned + 1);
    }

    /** The lock region of Restart. */
    method BeginRestart() returns (ok: bool)
      requires Valid() && phase.Settled?
      modifies this
      ensures Valid() && View() == Apply(old(View()), Restart)
      ensures ok == (!old(shutdown) || old(abandonedWorkers) == 0)
    {
      if !shutdown { return true; }
      if abandonedWorkers != 0 { return false; }
      workerDone := seq(|workerDone|, i => false);
      shutdown := false;
      phase := Starting(0);
      return true;
    }
  }

  /** The find_if of the worker loop. */
  method FindEligible(queue: seq<Job>, room: bool) returns (k: nat)
    ensures k == FirstIndex(queue, CanStart(room))
  {
    k := 0;
    while k < |queue| && queue[k].kind == Image && !room
      invariant k <= |queue|
      invariant forall j :: 0 <= j < k ==> !CanStart(room)(queue[j])
    {
      k := k + 1;
    }
    FirstIndexIs(queue, CanStart(room), k);
  }

  /** Job `j` carries the token and no earlier one does. */
  predicate FirstCarrier(queue: seq<Job>, token: Token, j: nat) {
    j < |queue| && queue[j].token == token && forall i :: 0 <= i < j ==> queue[i].token != token
  }

  lemma OneFirstCarrier(queue: seq<Job>, token: Token, k: nat)
    requires FirstCarrier(queue, token, k)
    ensures forall j: nat :: FirstCarrier(queue, token, j) ==> j == k
  {
  }

  /** The find_if of the expiry path. */
  method FindToken(queue: seq<Job>, token: Token) returns (k: nat)
    ensures k == FirstIndex(queue, CarriesToken(token))
    ensures k == |queue| || FirstCarrier(queue, token, k)
    ensures k == |queue| ==> forall i :: 0 <= i < |queue| ==> queue[i].token != token
  {
    k := 0;
    while k < |queue| && queue[k].token != token
      invariant k <= |queue|
      invariant forall j :: 0 <= j < k ==> !CarriesToken(token)(queue[j])
    {
      k := k + 1;
    }
    FirstIndexIs(queue, CarriesToken(token), k);
  }

  /** The flags the bounded shutdown sets for the jobs that are running. */
  method FlagsOfRunning(tokens: seq<Option<Token>>, ghost threads: seq<Worker>) returns (flags: set<Token>)
    requires |tokens| == |threads|
    requires forall i :: 0 <= i < |tokens| ==>
               tokens[i] == if threads[i].Running? then Some(threads[i].job.token) else None
    ensures flags == ActiveTokens(threads)
  {
    flags := {};
    for i := 0 to |tokens|
      invariant flags == set j | 0 <= j < i && threads[j].Running? :: threads[j].job.token
    {
      if tokens[i].Some? { flags := flags + {tokens[i].value}; }
    }
  }

  /** The flags the bounded shutdown sets for the jobs that still wait. */
  method FlagsOfQueued(queue: seq<Job>) returns (flags: set<Token>)
    ensures flags == QueuedTokens(queue)
  {
    flags := {};
    for k := 0 to |queue|
      invariant flags == set j | 0 <= j < k :: queue[j].token
    {
      flags := flags + {queue[k].token};
    }
  }
}
