/**
 What every run of the request scheduler keeps: job fates, image limits, start order,
 wake-up accounting and worker lifecycles.
 */
module SchedulerProofs {
  import opened Counting
  import opened SchedulerModel

  // ------------------------------------------------------------ invariants

  /** The queue and the workers hold exactly the jobs whose fate says so. */
  ghost predicate FateInv(queue: seq<Job>, workers: seq<Worker>, fate: map<nat, Fate>) {
    && (forall k :: 0 <= k < |queue| ==> queue[k].id in fate && fate[queue[k].id] == Queued)
    && (forall id :: id in fate && fate[id] == Queued ==> id in QueuedIds(queue))
    && (forall i :: 0 <= i < |workers| && workers[i].Running? ==>
          workers[i].job.id in fate && fate[workers[i].job.id] == RunningOn(i))
    && (forall id :: id in fate && fate[id].RunningOn? ==> Holds(workers, fate[id].index, id))
  }

  predicate Holds(workers: seq<Worker>, i: nat, id: nat) {
    i < |workers| && workers[i].Running? && workers[i].job.id == id
  }

  predicate Started(fate: map<nat, Fate>, id: nat) {
    id in fate && (fate[id].RunningOn? || fate[id].Finished?)
  }

  /** Jobs are numbered without gaps, and the queue is in submission order. */
  ghost predicate IdsInv(s: State) {
    Numbered(s.fate, s.accepted) && Ascending(s.queue)
  }

  ghost predicate Numbered(fate: map<nat, Fate>, accepted: nat) {
    forall id: nat :: id in fate <==> id < accepted
  }

  ghost predicate Ascending(queue: seq<Job>) {
    forall j, k :: 0 <= j < k < |queue| ==> queue[j].id < queue[k].id
  }

  /** Started jobs are distinct and, within each class, in submission order ahead of the queue. */
  ghost predicate OrderInv(queue: seq<Job>, starts: seq<Job>, fate: map<nat, Fate>) {
    && (forall n :: 0 <= n < |starts| ==> Started(fate, starts[n].id))
    && (forall m, n :: 0 <= m < n < |starts| ==> starts[m].id != starts[n].id)
    && (forall m, n :: 0 <= m < n < |starts| && IsImage(starts[m]) == IsImage(starts[n]) ==>
          starts[m].id < starts[n].id)
    && (forall n, k :: 0 <= n < |starts| && 0 <= k < |queue| && IsImage(starts[n]) == IsImage(queue[k]) ==>
          starts[n].id < queue[k].id)
  }

  /** The image counter is the number of workers running images, and both quotas hold. */
  ghost predicate LimitInv(s: State) {
    && s.activeImages == Count(s.workers, RunsImage)
    && s.activeImages <= MaxImages(|s.workers|)
    && |s.queue| <= MaxQueue(|s.workers|)
    && Count(s.queue, IsImage) <= MaxQueue(|s.workers|) - |s.workers|
  }

  predicate Announcing(ws: seq<Worker>) {
    exists i :: 0 <= i < |ws| && ws[i].Notifying?
  }

  predicate Sleeper(ws: seq<Worker>) {
    exists i :: 0 <= i < |ws| && ws[i].Sleeping?
  }

  /** A worker sleeps although no `notify_all` is on its way. */
  predicate AtRest(s: State) {
    Sleeper(s.workers) && s.owedAll == 0 && !Announcing(s.workers)
  }

  /** Nobody sleeps past work: every eligible job has a checking worker or an owed wake-up. */
  predicate WakeInv(s: State) {
    AtRest(s) ==> Eligible(s) <= Count(s.workers, IsChecking) + s.owedOne
  }

  /** During shutdown a worker may only sleep in front of images that have no room. */
  predicate DrainInv(s: State) {
    s.shutdown && AtRest(s) ==> s.queue != [] && Eligible(s) == 0
  }

  ghost predicate LifeInv(s: State) {
    var n := |s.workers|;
    && n > 0 && |s.done| == n
    && (forall i :: 0 <= i < n && s.done[i] ==> !IsLive(s.workers[i]))
    && (forall i :: 0 <= i < n && s.workers[i].Exited? ==> s.done[i])
    && (!s.shutdown ==> s.phase.Settled? || s.phase.Starting?)
    && (!s.shutdown ==> s.abandoned == 0 && forall i :: 0 <= i < n ==> !s.done[i])
    && PhaseInv(s)
  }

  ghost predicate PhaseInv(s: State) {
    var n := |s.workers|;
    match s.phase
    case Settled =>
      && (s.shutdown && s.abandoned == 0 ==> forall i :: 0 <= i < n ==> s.workers[i].Gone?)
      && (!s.shutdown ==> forall i :: 0 <= i < n ==> IsLive(s.workers[i]))
    case Starting(next) =>
      && next <= n && !s.shutdown
      && (forall i :: 0 <= i < next ==> IsLive(s.workers[i]))
      && (forall i :: next <= i < n ==> s.workers[i].Gone?)
    case Joining => s.shutdown && s.abandoned == 0
    case Stopping => s.shutdown && s.abandoned == 0
    case Judging(next, missing) =>
      && next <= n && s.shutdown && s.abandoned == 0
      && (missing == 0 ==> forall i :: 0 <= i < next ==> s.workers[i].Gone?)
  }

  ghost predicate Inv(s: State) {
    && FateInv(s.queue, s.workers, s.fate) && IdsInv(s) && OrderInv(s.queue, s.starts, s.fate)
    && LimitInv(s) && WakeInv(s) && DrainInv(s) && LifeInv(s)
  }

  // ------------------------------------------------------------ quiet steps

  predicate SameJob(a: Worker, b: Worker) {
    a.Running? == b.Running? && (a.Running? ==> a == b)
  }

  /** A step that moves threads but no job. */
  predicate Quiet(s: State, t: State) {
    && t.queue == s.queue && t.fate == s.fate && t.starts == s.starts && t.accepted == s.accepted
    && t.activeImages == s.activeImages && |t.workers| == |s.workers|
    && forall i :: 0 <= i < |s.workers| ==> SameJob(s.workers[i], t.workers[i])
  }

  predicate MovesNoJob(step: Step) {
    !(step.Enqueue? || step.Turn? || step.Finish? || step.Retire? || step.ShutdownBounded?)
  }

  lemma QuietStep(s: State, step: Step)
    requires LifeInv(s) && Enabled(s, step) && MovesNoJob(step)
    ensures Quiet(s, Apply(s, step))
  {
    if step.NotifyOne? || step.NotifyAll? || step.SpuriousWake? || step.Broadcast? {
      QuietWake(s, step);
    } else {
      QuietLifecycle(s, step);
    }
  }

  lemma QuietWake(s: State, step: Step)
    requires Enabled(s, step) && (step.NotifyOne? || step.NotifyAll? || step.SpuriousWake? || step.Broadcast?)
    ensures Quiet(s, Apply(s, step))
  {
  }

  lemma QuietLifecycle(s: State, step: Step)
    requires LifeInv(s) && Enabled(s, step) && MovesNoJob(step)
    requires !step.NotifyOne? && !step.NotifyAll? && !step.SpuriousWake? && !step.Broadcast?
    ensures Quiet(s, Apply(s, step))
  {
  }

  lemma QuietKeeps(s: State, t: State)
    requires FateInv(s.queue, s.workers, s.fate) && LimitInv(s) && Quiet(s, t)
    ensures FateInv(t.queue, t.workers, t.fate) && LimitInv(t)
  {
    forall id | id in t.fate && t.fate[id].RunningOn? ensures Holds(t.workers, t.fate[id].index, id) {
      assert Holds(s.workers, s.fate[id].index, id);
      assert SameJob(s.workers[s.fate[id].index], t.workers[s.fate[id].index]);
    }
    forall i | 0 <= i < |t.workers| ensures RunsImage(s.workers[i]) == RunsImage(t.workers[i]) {
      assert SameJob(s.workers[i], t.workers[i]);
    }
    forall i | 0 <= i < |t.workers| && t.workers[i].Running?
      ensures t.workers[i].job.id in t.fate && t.fate[t.workers[i].job.id] == RunningOn(i)
    {
      assert SameJob(s.workers[i], t.workers[i]);
    }
    CountSame(s.workers, t.workers, RunsImage);
  }

  // -------------------------------------------------------------- job fates

  lemma FatePush(queue: seq<Job>, workers: seq<Worker>, fate: map<nat, Fate>, job: Job)
    requires FateInv(queue, workers, fate) && job.id !in fate
    ensures FateInv(queue + [job], workers, fate[job.id := Queued])
  {
    var q := queue + [job];
    assert q[|queue|] == job;
    forall id | id in fate && fate[id] == Queued ensures id in QueuedIds(q) {
      assert id in QueuedIds(queue);
      var k :| 0 <= k < |queue| && queue[k].id == id;
      assert q[k].id == id;
    }
  }

  lemma QueuedAfterRemove(queue: seq<Job>, k: nat, id: nat)
    requires k < |queue| && id in QueuedIds(queue) && id != queue[k].id
    ensures id in QueuedIds(Remove(queue, k))
  {
    var j :| 0 <= j < |queue| && queue[j].id == id;
    if j < k { assert Remove(queue, k)[j].id == id; } else { assert Remove(queue, k)[j - 1].id == id; }
  }

  /** Moving queue element `k` to a fate that is neither queued nor running. */
  lemma FateDrop(queue: seq<Job>, workers: seq<Worker>, fate: map<nat, Fate>, k: nat, end: Fate)
    requires FateInv(queue, workers, fate) && k < |queue|
    requires Ascending(queue)
    requires !end.Queued? && !end.RunningOn?
    ensures FateInv(Remove(queue, k), workers, fate[queue[k].id := end])
  {
    var f := fate[queue[k].id := end];
    forall id | id in f && f[id] == Queued ensures id in QueuedIds(Remove(queue, k)) {
      QueuedAfterRemove(queue, k, id);
    }
  }

  lemma FateTake(queue: seq<Job>, workers: seq<Worker>, fate: map<nat, Fate>, k: nat, i: nat)
    requires FateInv(queue, workers, fate) && k < |queue| && i < |workers| && !workers[i].Running?
    requires Ascending(queue)
    ensures FateInv(Remove(queue, k), workers[i := Running(queue[k])], fate[queue[k].id := RunningOn(i)])
  {
    var f := fate[queue[k].id := RunningOn(i)];
    var w := workers[i := Running(queue[k])];
    forall id | id in f && f[id] == Queued ensures id in QueuedIds(Remove(queue, k)) {
      QueuedAfterRemove(queue, k, id);
    }
    forall id | id in f && f[id].RunningOn? ensures Holds(w, f[id].index, id) {
      if id != queue[k].id { assert Holds(workers, fate[id].index, id); }
    }
  }

  lemma FateFinish(queue: seq<Job>, workers: seq<Worker>, fate: map<nat, Fate>, i: nat, next: Worker)
    requires FateInv(queue, workers, fate) && i < |workers| && workers[i].Running? && !next.Running?
    ensures FateInv(queue, workers[i := next], fate[workers[i].job.id := Finished])
  {
    var f := fate[workers[i].job.id := Finished];
    forall id | id in f && f[id].RunningOn? ensures Holds(workers[i := next], f[id].index, id) {
      assert Holds(workers, fate[id].index, id);
    }
  }

  lemma FateReject(s: State)
    requires FateInv(s.queue, s.workers, s.fate)
    ensures FateInv([], s.workers, RejectAll(s).fate)
  {
    var f := RejectAll(s).fate;
    forall i | 0 <= i < |s.workers| && s.workers[i].Running? ensures s.workers[i].job.id !in QueuedIds(s.queue) {
    }
    forall id | id in f && f[id].RunningOn? ensures Holds(s.workers, f[id].index, id) {
      assert Holds(s.workers, s.fate[id].index, id);
    }
  }

  lemma FateStep(s: State, step: Step)
    requires Inv(s) && Enabled(s, step) && !MovesNoJob(step)
    ensures FateInv(Apply(s, step).queue, Apply(s, step).workers, Apply(s, step).fate)
  {
    match step
    case Enqueue(kind, token, expired) => FatePush(s.queue, s.workers, s.fate, Job(s.accepted, kind, token));
    case Turn(i) =>
      var k := Pick(s);
      if k < |s.queue| {
        FateTake(s.queue, s.workers, s.fate, k, i);
      } else {
        FateIdle(s, i, Exited);
        FateIdle(s, i, Sleeping);
      }
    case Finish(i) =>
      FateFinish(s.queue, s.workers, s.fate, i, Notifying);
      FateFinish(s.queue, s.workers, s.fate, i, Checking);
    case Retire(token) =>
      var k := FirstIndex(s.queue, CarriesToken(token));
      if k < |s.queue| { FateDrop(s.queue, s.workers, s.fate, k, Retired); }
    case ShutdownBounded => FateReject(s);
  }

  lemma FateIdle(s: State, i: nat, next: Worker)
    requires FateInv(s.queue, s.workers, s.fate) && i < |s.workers| && !s.workers[i].Running? && !next.Running?
    ensures FateInv(s.queue, s.workers[i := next], s.fate)
  {
    forall id | id in s.fate && s.fate[id].RunningOn? ensures Holds(s.workers[i := next], s.fate[id].index, id) {
      assert Holds(s.workers, s.fate[id].index, id);
    }
  }

  // ------------------------------------------------------------ start order

  /** No queued job of the same class stands before position `k`. */
  predicate FirstOfClass(queue: seq<Job>, k: nat)
    requires k < |queue|
  {
    forall j :: 0 <= j < k ==> IsImage(queue[j]) != IsImage(queue[k])
  }

  lemma PickIsFirstOfClass(queue: seq<Job>, room: bool)
    requires FirstIndex(queue, CanStart(room)) < |queue|
    ensures FirstOfClass(queue, FirstIndex(queue, CanStart(room)))
  {
    var k := FirstIndex(queue, CanStart(room));
    forall j | 0 <= j < k ensures IsImage(queue[j]) != IsImage(queue[k]) {
      assert !CanStart(room)(queue[j]);
      assert CanStart(room)(queue[k]);
    }
  }

  lemma OrderTake(queue: seq<Job>, starts: seq<Job>, fate: map<nat, Fate>, k: nat, i: nat)
    requires OrderInv(queue, starts, fate) && k < |queue|
    requires Ascending(queue)
    requires FirstOfClass(queue, k)
    requires queue[k].id in fate && fate[queue[k].id] == Queued
    ensures OrderInv(Remove(queue, k), starts + [queue[k]], fate[queue[k].id := RunningOn(i)])
  {
    var job := queue[k];
    var t := starts + [job];
    var q := Remove(queue, k);
    var f := fate[job.id := RunningOn(i)];
    forall n | 0 <= n < |t| ensures Started(f, t[n].id) && (n < |starts| ==> t[n].id != job.id) {
      if n < |starts| { assert Started(fate, starts[n].id); }
    }
    OrderTakeQueue(queue, starts, k);
  }

  lemma OrderTakeQueue(queue: seq<Job>, starts: seq<Job>, k: nat)
    requires k < |queue|
    requires Ascending(queue)
    requires FirstOfClass(queue, k)
    requires forall n, l :: 0 <= n < |starts| && 0 <= l < |queue| && IsImage(starts[n]) == IsImage(queue[l]) ==>
               starts[n].id < queue[l].id
    ensures var t, q := starts + [queue[k]], Remove(queue, k);
            forall n, j :: 0 <= n < |t| && 0 <= j < |q| && IsImage(t[n]) == IsImage(q[j]) ==> t[n].id < q[j].id
  {
    var t, q := starts + [queue[k]], Remove(queue, k);
    forall n, j | 0 <= n < |t| && 0 <= j < |q| && IsImage(t[n]) == IsImage(q[j]) ensures t[n].id < q[j].id {
      var o := if j < k then j else j + 1;
      assert q[j] == queue[o];
      if n == |starts| { assert k < o; } else { assert t[n] == starts[n]; }
    }
  }

  lemma OrderStep(s: State, step: Step)
    requires Inv(s) && Enabled(s, step)
    ensures OrderInv(Apply(s, step).queue, Apply(s, step).starts, Apply(s, step).fate)
  {
    match step
    case Turn(i) =>
      if Pick(s) < |s.queue| {
        PickIsFirstOfClass(s.queue, Room(s));
        OrderTake(s.queue, s.starts, s.fate, Pick(s), i);
      }
    case Enqueue(_, _, _) => OrderPush(s, step);
    case Retire(token) => OrderRetire(s, token);
    case ShutdownBounded => OrderReject(s);
    case Finish(i) => OrderFinish(s, i);
    case _ => QuietStep(s, step);
  }

  lemma OrderPush(s: State, step: Step)
    requires OrderInv(s.queue, s.starts, s.fate) && IdsInv(s) && step.Enqueue?
    ensures OrderInv(Apply(s, step).queue, Apply(s, step).starts, Apply(s, step).fate)
  {
    var t := Apply(s, step);
    forall n | 0 <= n < |s.starts| ensures s.starts[n].id < s.accepted && Started(t.fate, s.starts[n].id) {
      assert Started(s.fate, s.starts[n].id);
    }
  }

  lemma OrderRetire(s: State, token: Token)
    requires OrderInv(s.queue, s.starts, s.fate) && FateInv(s.queue, s.workers, s.fate)
    ensures var t := Apply(s, Retire(token)); OrderInv(t.queue, t.starts, t.fate)
  {
    var t := Apply(s, Retire(token));
    var k := FirstIndex(s.queue, CarriesToken(token));
    if k < |s.queue| {
      forall n | 0 <= n < |s.starts| ensures Started(t.fate, s.starts[n].id) {
        assert Started(s.fate, s.starts[n].id);
      }
      forall n, j | 0 <= n < |t.starts| && 0 <= j < |t.queue| && IsImage(t.starts[n]) == IsImage(t.queue[j])
        ensures t.starts[n].id < t.queue[j].id
      {
        assert t.queue[j] == s.queue[if j < k then j else j + 1];
      }
    }
  }

  lemma OrderReject(s: State)
    requires OrderInv(s.queue, s.starts, s.fate) && FateInv(s.queue, s.workers, s.fate)
    ensures OrderInv([], s.starts, RejectAll(s).fate)
  {
    forall n | 0 <= n < |s.starts| ensures Started(RejectAll(s).fate, s.starts[n].id) {
      assert Started(s.fate, s.starts[n].id);
    }
  }

  lemma OrderFinish(s: State, i: nat)
    requires OrderInv(s.queue, s.starts, s.fate) && i < |s.workers| && s.workers[i].Running?
    ensures OrderInv(s.queue, s.starts, s.fate[s.workers[i].job.id := Finished])
  {
    forall n | 0 <= n < |s.starts| ensures Started(s.fate[s.workers[i].job.id := Finished], s.starts[n].id) {
      assert Started(s.fate, s.starts[n].id);
    }
  }

  lemma NumberedMoves(s: State, step: Step)
    requires FateInv(s.queue, s.workers, s.fate) && Numbered(s.fate, s.accepted) && Enabled(s, step)
    requires !MovesNoJob(step)
    ensures Numbered(Apply(s, step).fate, Apply(s, step).accepted)
  {
    if step.Turn? && Pick(s) < |s.queue| { assert s.queue[Pick(s)].id in s.fate; }
    if step.Finish? { assert s.workers[step.worker].job.id in s.fate; }
  }

  lemma NumberedStep(s: State, step: Step)
    requires FateInv(s.queue, s.workers, s.fate) && LifeInv(s) && Numbered(s.fate, s.accepted) && Enabled(s, step)
    ensures Numbered(Apply(s, step).fate, Apply(s, step).accepted)
  {
    hide Numbered, Apply, Enabled, FateInv, LifeInv;
    if MovesNoJob(step) { QuietStep(s, step); } else { NumberedMoves(s, step); }
  }

  lemma AscendingPush(s: State, step: Step)
    requires FateInv(s.queue, s.workers, s.fate) && IdsInv(s) && step.Enqueue?
    ensures Ascending(Apply(s, step).queue)
  {
    assert forall k :: 0 <= k < |s.queue| ==> s.queue[k].id in s.fate;
  }

  lemma AscendingTurn(s: State, i: nat)
    requires Ascending(s.queue) && Enabled(s, Turn(i))
    ensures Ascending(Apply(s, Turn(i)).queue)
  {
    if Pick(s) < |s.queue| { AscendingRemove(s.queue, Pick(s)); }
    hide Ascending;
  }

  lemma AscendingRetire(s: State, token: Token)
    requires Ascending(s.queue)
    ensures Ascending(Apply(s, Retire(token)).queue)
  {
    var k := FirstIndex(s.queue, CarriesToken(token));
    if k < |s.queue| { AscendingRemove(s.queue, k); }
    hide Ascending;
  }

  lemma AscendingRest(s: State, step: Step)
    requires Ascending(s.queue) && Enabled(s, step) && (step.Finish? || step.ShutdownBounded?)
    ensures Ascending(Apply(s, step).queue)
  {
  }

  lemma AscendingStep(s: State, step: Step)
    requires FateInv(s.queue, s.workers, s.fate) && LifeInv(s) && IdsInv(s) && Enabled(s, step)
    ensures Ascending(Apply(s, step).queue)
  {
    hide Ascending, Apply, Enabled, FateInv, LifeInv, Numbered;
    if MovesNoJob(step) {
      QuietStep(s, step);
    } else if step.Enqueue? {
      AscendingPush(s, step);
    } else if step.Turn? {
      AscendingTurn(s, step.worker);
    } else if step.Retire? {
      AscendingRetire(s, step.token);
    } else {
      AscendingRest(s, step);
    }
  }

  lemma AscendingRemove(queue: seq<Job>, k: nat)
    requires k < |queue| && Ascending(queue)
    ensures Ascending(Remove(queue, k))
  {
    var q := Remove(queue, k);
    forall i, j | 0 <= i < j < |q| ensures q[i].id < q[j].id {
      assert q[i] == queue[if i < k then i else i + 1];
      assert q[j] == queue[if j < k then j else j + 1];
    }
  }

  // ----------------------------------------------------------------- limits

  lemma LimitPush(s: State, step: Step)
    requires LimitInv(s) && step.Enqueue?
    ensures LimitInv(Apply(s, step))
  {
    CountAppend(s.queue, Job(s.accepted, step.kind, step.token), IsImage);
  }

  lemma LimitReject(s: State)
    requires LimitInv(s) && Enabled(s, ShutdownBounded)
    ensures LimitInv(Apply(s, ShutdownBounded))
  {
  }

  lemma LimitStep(s: State, step: Step)
    requires Inv(s) && Enabled(s, step)
    ensures LimitInv(Apply(s, step))
  {
    hide WakeInv, DrainInv, LifeInv, Apply, Enabled, FateInv, IdsInv, OrderInv, LimitInv;
    match step
    case Enqueue(_, _, _) => LimitPush(s, step);
    case Turn(i) => LimitTurn(s, i);
    case Finish(i) => LimitFinish(s, i);
    case Retire(token) => LimitRetire(s, token);
    case ShutdownBounded => LimitReject(s);
    case _ =>
      QuietStep(s, step);
      QuietKeeps(s, Apply(s, step));
  }

  lemma LimitFinish(s: State, i: nat)
    requires LimitInv(s) && Enabled(s, Finish(i))
    ensures LimitInv(Apply(s, Finish(i)))
  {
    CountUpdate(s.workers, i, Notifying, RunsImage);
    CountUpdate(s.workers, i, Checking, RunsImage);
  }

  lemma LimitRetire(s: State, token: Token)
    requires LimitInv(s)
    ensures LimitInv(Apply(s, Retire(token)))
  {
    var k := FirstIndex(s.queue, CarriesToken(token));
    if k < |s.queue| { CountRemove(s.queue, k, IsImage); }
  }

  lemma LimitTurn(s: State, i: nat)
    requires LimitInv(s) && Enabled(s, Turn(i))
    ensures LimitInv(Apply(s, Turn(i)))
  {
    var k := Pick(s);
    CountUpdate(s.workers, i, Apply(s, Turn(i)).workers[i], RunsImage);
    if k < |s.queue| {
      CountRemove(s.queue, k, IsImage);
    }
  }

  // -------------------------------------------------------------- wake-ups

  lemma EligibleBound(q: seq<Job>, a: bool, b: bool)
    requires a ==> b
    ensures Count(q, CanStart(a)) <= Count(q, CanStart(b))
  {
    CountMono(q, CanStart(a), CanStart(b));
  }

  /** A worker that neither falls asleep nor stops announcing leaves nobody newly at rest. */
  lemma RestBefore(s: State, i: nat, next: Worker)
    requires i < |s.workers| && !s.workers[i].Notifying? && !next.Sleeping?
    ensures Sleeper(s.workers[i := next]) ==> Sleeper(s.workers)
    ensures Announcing(s.workers) ==> Announcing(s.workers[i := next])
  {
    var w := s.workers[i := next];
    if Announcing(s.workers) {
      var j :| 0 <= j < |s.workers| && s.workers[j].Notifying?;
      assert w[j].Notifying?;
    }
    if Sleeper(w) {
      var j :| 0 <= j < |w| && w[j].Sleeping?;
      assert s.workers[j].Sleeping?;
    }
  }

  lemma NobodySleeps(ws: seq<Worker>, i: nat)
    ensures !Sleeper(WakeAll(ws))
    ensures i < |ws| ==> !Sleeper(WakeAll(ws)[i := Checking])
  {
  }

  lemma WakeTurn(s: State, i: nat)
    requires WakeInv(s) && DrainInv(s) && Enabled(s, Turn(i))
    ensures WakeInv(Apply(s, Turn(i))) && DrainInv(Apply(s, Turn(i)))
  {
    var t := Apply(s, Turn(i));
    var k := Pick(s);
    CountUpdate(s.workers, i, t.workers[i], IsChecking);
    if !t.workers[i].Sleeping? {
      RestBefore(s, i, t.workers[i]);
      if k < |s.queue| {
        CountRemove(s.queue, k, CanStart(Room(s)));
        EligibleBound(t.queue, Room(t), Room(s));
      }
    } else {
      CountZero(s.queue, CanStart(Room(s)));
    }
  }

  lemma WakeFinish(s: State, i: nat)
    requires WakeInv(s) && DrainInv(s) && Enabled(s, Finish(i))
    ensures WakeInv(Apply(s, Finish(i))) && DrainInv(Apply(s, Finish(i)))
  {
    var t := Apply(s, Finish(i));
    if s.workers[i].job.kind == Image {
      assert t.workers[i].Notifying?;
    } else {
      CountUpdate(s.workers, i, Checking, IsChecking);
      RestBefore(s, i, Checking);
    }
  }

  lemma WakeOne(s: State, i: nat)
    requires WakeInv(s) && DrainInv(s) && i < |s.workers| && s.workers[i].Sleeping?
    ensures var w := s.workers[i := Checking];
            && Count(w, IsChecking) == Count(s.workers, IsChecking) + 1
            && (Sleeper(w) ==> Sleeper(s.workers)) && (Announcing(s.workers) ==> Announcing(w))
  {
    CountUpdate(s.workers, i, Checking, IsChecking);
    RestBefore(s, i, Checking);
  }

  lemma WakeNotify(s: State, step: Step)
    requires WakeInv(s) && DrainInv(s) && Enabled(s, step)
    requires step.NotifyOne? || step.NotifyAll? || step.SpuriousWake? || step.Broadcast?
    ensures WakeInv(Apply(s, step)) && DrainInv(Apply(s, step))
  {
    match step
    case NotifyOne(i) => if s.workers[i].Sleeping? { WakeOne(s, i); }
    case NotifyAll => NobodySleeps(s.workers, 0);
    case SpuriousWake(i) => WakeOne(s, i);
    case Broadcast(i) => NobodySleeps(s.workers, i);
  }

  lemma WakeEnqueue(s: State, step: Step)
    requires WakeInv(s) && DrainInv(s) && step.Enqueue?
    ensures WakeInv(Apply(s, step)) && DrainInv(Apply(s, step))
  {
    CountAppend(s.queue, Job(s.accepted, step.kind, step.token), CanStart(Room(s)));
  }

  lemma WakeStep(s: State, step: Step)
    requires Inv(s) && Enabled(s, step)
    ensures WakeInv(Apply(s, step)) && DrainInv(Apply(s, step))
  {
    hide WakeInv, DrainInv, LifeInv, Apply, Enabled, FateInv, IdsInv, OrderInv, LimitInv;
    match step
    case Enqueue(_, _, _) => WakeEnqueue(s, step);
    case Turn(i) => WakeTurn(s, i);
    case Finish(i) => WakeFinish(s, i);
    case NotifyOne(_) => WakeNotify(s, step);
    case NotifyAll => WakeNotify(s, step);
    case SpuriousWake(_) => WakeNotify(s, step);
    case Broadcast(_) => WakeNotify(s, step);
    case _ => WakeLifecycle(s, step);
  }

  lemma WakeLifecycle(s: State, step: Step)
    requires WakeInv(s) && DrainInv(s) && LifeInv(s) && Enabled(s, step)
    requires step.Retire? || step.ShutdownDrain? || step.JoinAll? || step.ShutdownBounded? || step.StopWaiting?
          || step.Judge? || step.JudgeEnd? || step.Restart? || step.StartWorker? || step.StartFailed? || step.StartEnd?
    ensures WakeInv(Apply(s, step)) && DrainInv(Apply(s, step))
  {
    if step.Judge? || step.StartWorker? {
      WakeOneThread(s, step);
    } else if step.Restart? || step.JoinAll? {
      WakeSession(s, step);
    } else {
      WakeStopping(s, step);
    }
  }

  lemma WakeOneThread(s: State, step: Step)
    requires WakeInv(s) && DrainInv(s) && LifeInv(s) && Enabled(s, step) && (step.Judge? || step.StartWorker?)
    ensures WakeInv(Apply(s, step)) && DrainInv(Apply(s, step))
  {
    if step.Judge? && s.done[s.phase.next] {
      CountUpdate(s.workers, s.phase.next, Gone, IsChecking);
      RestBefore(s, s.phase.next, Gone);
    } else if step.StartWorker? {
      CountUpdate(s.workers, s.phase.next, Checking, IsChecking);
      RestBefore(s, s.phase.next, Checking);
    }
  }

  lemma WakeSession(s: State, step: Step)
    requires WakeInv(s) && DrainInv(s) && LifeInv(s) && Enabled(s, step) && (step.Restart? || step.JoinAll?)
    ensures WakeInv(Apply(s, step)) && DrainInv(Apply(s, step))
  {
    if step.Restart? && s.shutdown && s.abandoned == 0 {
      assert !Sleeper(s.workers);
    }
  }

  /** What stops the scheduler owes a broadcast, and the rest leaves threads and queue alone. */
  lemma WakeStopping(s: State, step: Step)
    requires WakeInv(s) && DrainInv(s) && Enabled(s, step)
    requires step.Retire? || step.ShutdownDrain? || step.ShutdownBounded? || step.StopWaiting?
          || step.JudgeEnd? || step.StartFailed? || step.StartEnd?
    ensures WakeInv(Apply(s, step)) && DrainInv(Apply(s, step))
  {
  }

  // ---------------------------------------------------------------- the step

  lemma LifeJobs(s: State, step: Step)
    requires LifeInv(s) && Enabled(s, step) && (step.Enqueue? || step.Retire?)
    ensures LifeInv(Apply(s, step))
  {
  }

  lemma LifeThreads(s: State, step: Step)
    requires LifeInv(s) && Enabled(s, step)
    requires step.NotifyOne? || step.NotifyAll? || step.SpuriousWake? || step.Finish? || step.Broadcast?
    ensures LifeInv(Apply(s, step))
  {
    LifeSwap(s, Apply(s, step));
    hide LifeInv;
  }

  lemma LifeStep(s: State, step: Step)
    requires LifeInv(s) && Enabled(s, step)
    ensures LifeInv(Apply(s, step))
  {
    hide LifeInv, Apply, Enabled;
    if step.NotifyOne? || step.NotifyAll? || step.SpuriousWake? || step.Finish? || step.Broadcast? {
      LifeThreads(s, step);
    } else if step.Turn? {
      LifeTurn(s, step.worker);
    } else if step.Enqueue? || step.Retire? {
      LifeJobs(s, step);
    } else {
      LifeLifecycle(s, step);
    }
  }

  /** A step under which every thread stays live, gone or exited as it was. */
  lemma LifeSwap(s: State, t: State)
    requires LifeInv(s)
    requires |t.workers| == |s.workers| && t.done == s.done && t.shutdown == s.shutdown
    requires t.abandoned == s.abandoned && t.phase == s.phase
    requires forall i :: 0 <= i < |s.workers| ==>
               t.workers[i] == s.workers[i] || (IsLive(s.workers[i]) && IsLive(t.workers[i]))
    ensures LifeInv(t)
  {
  }

  lemma LifeTurn(s: State, i: nat)
    requires LifeInv(s) && Enabled(s, Turn(i))
    ensures LifeInv(Apply(s, Turn(i)))
  {
    var t := Apply(s, Turn(i));
    if s.shutdown && s.queue == [] {
      assert forall j :: 0 <= j < |s.workers| && j != i ==> t.workers[j] == s.workers[j] && t.done[j] == s.done[j];
    } else {
      LifeSwap(s, t);
    }
  }

  lemma LifeLifecycle(s: State, step: Step)
    requires LifeInv(s) && Enabled(s, step)
    requires step.ShutdownDrain? || step.JoinAll? || step.ShutdownBounded? || step.StopWaiting?
          || step.Judge? || step.JudgeEnd? || step.Restart? || step.StartWorker? || step.StartFailed? || step.StartEnd?
    ensures LifeInv(Apply(s, step))
  {
  }

  lemma StepInv(s: State, step: Step)
    requires Inv(s) && Enabled(s, step)
    ensures Inv(Apply(s, step))
  {
    if MovesNoJob(step) {
      QuietStep(s, step);
      QuietKeeps(s, Apply(s, step));
    } else {
      FateStep(s, step);
    }
    NumberedStep(s, step);
    AscendingStep(s, step);
    OrderStep(s, step);
    LimitStep(s, step);
    WakeStep(s, step);
    LifeStep(s, step);
  }

  lemma InitInv(workers: nat)
    requires workers > 0
    ensures Inv(Init(workers))
  {
    CountZero(Init(workers).workers, RunsImage);
  }
}
