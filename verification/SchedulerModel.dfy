/**
 The request scheduler as a state machine: one lock region, one notification or one
 thread start is one step. `Apply` says what a step does, `Enabled` when a thread can
 take it; everything proved here holds of every interleaving of the steps.
 */
module SchedulerModel {
  import opened Counting

  type Token = nat

  datatype Kind = SongUrl | Search | Playlist | LoginPoll | Image | Generic | LoginKey

  /** `id` numbers the accepted submissions; `token` is the job's cancellation flag. */
  datatype Job = Job(id: nat, kind: Kind, token: Token)

  /** Where the thread that serves one worker index stands. */
  datatype Worker =
    | Gone            // no joinable thread: not started yet, or joined
    | Checking        // about to evaluate the wait predicate under the mutex
    | Sleeping        // blocked on the condition variable
    | Running(job: Job)
    | Notifying       // finished an image job, `notify_all` still to come
    | Exited          // `workerDone` set, thread function returned

  /** What has become of a job that was accepted into the queue. */
  datatype Fate = Queued | RunningOn(index: nat) | Finished | Retired | Rejected

  /** Progress of the call that holds the lifecycle mutex. */
  datatype Phase =
    | Settled
    | Starting(next: nat)
    | Joining
    | Stopping
    | Judging(next: nat, abandoned: nat)

  datatype State = State(
    queue: seq<Job>,
    shutdown: bool,
    abandoned: nat,
    activeImages: int,
    workers: seq<Worker>,
    done: seq<bool>,
    cancelled: set<Token>,
    phase: Phase,
    owedOne: nat,          // submissions that have not called notify_one yet
    owedAll: nat,          // threads that have not called notify_all yet
    accepted: nat,         // history: how many jobs were accepted, the next job's id
    fate: map<nat, Fate>,  // history: the fate of every accepted job
    starts: seq<Job>)      // history: jobs in the order workers took them

  datatype Step =
    | Enqueue(kind: Kind, token: Token, expired: bool)
    | NotifyOne(target: nat)
    | NotifyAll
    | SpuriousWake(worker: nat)
    | Turn(worker: nat)
    | Finish(worker: nat)
    | Broadcast(worker: nat)
    | Retire(token: Token)
    | ShutdownDrain
    | JoinAll
    | ShutdownBounded
    | StopWaiting
    | Judge
    | JudgeEnd
    | Restart
    | StartWorker
    | StartFailed
    | StartEnd

  // ---------------------------------------------------------------- limits

  function MaxQueue(workers: nat): nat { 4 * workers }

  function MaxImages(workers: nat): nat { if workers > 1 then workers / 2 else 1 }

  predicate IsImage(job: Job) { job.kind == Image }

  predicate IsChecking(w: Worker) { w.Checking? }

  predicate RunsImage(w: Worker) { w.Running? && w.job.kind == Image }

  predicate IsLive(w: Worker) { !w.Gone? && !w.Exited? }

  /** The eligibility test of the wait predicate, for a given amount of image room. */
  function CanStart(room: bool): Job -> bool { (job: Job) => job.kind != Image || room }

  function CarriesToken(token: Token): Job -> bool { (job: Job) => job.token == token }

  predicate Room(s: State) { s.activeImages < MaxImages(|s.workers|) }

  /** The first queued job a worker may take now, or the queue's length. */
  function Pick(s: State): nat { FirstIndex(s.queue, CanStart(Room(s))) }

  function Eligible(s: State): nat { Count(s.queue, CanStart(Room(s))) }

  function WakeAll(ws: seq<Worker>): (r: seq<Worker>)
    ensures |r| == |ws|
    ensures forall i :: 0 <= i < |ws| ==> r[i] == if ws[i].Sleeping? then Checking else ws[i]
  {
    seq(|ws|, i requires 0 <= i < |ws| => if ws[i].Sleeping? then Checking else ws[i])
  }

  // ----------------------------------------------------------------- steps

  function Init(workers: nat): State
    requires workers > 0
  {
    State([], false, 0, 0, seq(workers, i => Gone), seq(workers, i => false), {}, Starting(0), 0, 0, 0, map[], [])
  }

  /** Whether a submission that is neither expired nor refused would be stored. */
  predicate Admits(s: State, kind: Kind) {
    && !s.shutdown
    && |s.queue| < MaxQueue(|s.workers|)
    && (kind == Image ==> |s.queue| < MaxQueue(|s.workers|) - |s.workers|)
  }

  predicate Enabled(s: State, step: Step) {
    match step
    case Enqueue(_, _, _) => true
    case NotifyOne(i) =>
      && s.owedOne > 0 && i < |s.workers|
      && (s.workers[i].Sleeping? || forall j :: 0 <= j < |s.workers| ==> !s.workers[j].Sleeping?)
    case NotifyAll => s.owedAll > 0
    case SpuriousWake(i) => i < |s.workers| && s.workers[i].Sleeping?
    case Turn(i) => i < |s.workers| == |s.done| && s.workers[i].Checking?
    case Finish(i) => i < |s.workers| && s.workers[i].Running?
    case Broadcast(i) => i < |s.workers| && s.workers[i].Notifying?
    case Retire(_) => true
    case ShutdownDrain => s.phase.Settled?
    case JoinAll => s.phase.Joining? && forall i :: 0 <= i < |s.workers| ==> !IsLive(s.workers[i])
    case ShutdownBounded => s.phase.Settled?
    case StopWaiting => s.phase.Stopping?
    case Judge => s.phase.Judging? && s.phase.next < |s.workers| == |s.done|
    case JudgeEnd => s.phase.Judging? && s.phase.next == |s.workers|
    case Restart => s.phase.Settled?
    case StartWorker => s.phase.Starting? && s.phase.next < |s.workers|
    case StartFailed => s.phase.Starting? && s.phase.next < |s.workers|
    case StartEnd => s.phase.Starting? && s.phase.next == |s.workers|
  }

  function Apply(s: State, step: Step): State
    requires Enabled(s, step)
  {
    match step
    case Enqueue(kind, token, expired) =>
      if expired || !Admits(s, kind) then s
      else s.(queue := s.queue + [Job(s.accepted, kind, token)],
              fate := s.fate[s.accepted := Queued],
              accepted := s.accepted + 1,
              owedOne := s.owedOne + 1)
    case NotifyOne(i) =>
      s.(owedOne := s.owedOne - 1,
         workers := if s.workers[i].Sleeping? then s.workers[i := Checking] else s.workers)
    case NotifyAll => s.(owedAll := s.owedAll - 1, workers := WakeAll(s.workers))
    case SpuriousWake(i) => s.(workers := s.workers[i := Checking])
    case Turn(i) => TakeTurn(s, i)
    case Finish(i) =>
      var job := s.workers[i].job;
      s.(workers := s.workers[i := if job.kind == Image then Notifying else Checking],
         activeImages := if job.kind == Image then s.activeImages - 1 else s.activeImages,
         fate := s.fate[job.id := Finished])
    case Broadcast(i) => s.(workers := WakeAll(s.workers)[i := Checking])
    case Retire(token) =>
      var k := FirstIndex(s.queue, CarriesToken(token));
      if k == |s.queue| then s
      else s.(queue := Remove(s.queue, k), fate := s.fate[s.queue[k].id := Retired], owedAll := s.owedAll + 1)
    case ShutdownDrain =>
      if s.shutdown then s else s.(shutdown := true, owedAll := s.owedAll + 1, phase := Joining)
    case JoinAll => s.(workers := seq(|s.workers|, i => Gone), phase := Settled)
    case ShutdownBounded => if s.shutdown then s else RejectAll(s)
    case StopWaiting => s.(phase := Judging(0, 0))
    case Judge =>
      var i := s.phase.next;
      if s.done[i] then s.(workers := s.workers[i := Gone], phase := Judging(i + 1, s.phase.abandoned))
      else s.(phase := Judging(i + 1, s.phase.abandoned + 1))
    case JudgeEnd => s.(abandoned := s.phase.abandoned, phase := Settled)
    case Restart =>
      if !s.shutdown || s.abandoned != 0 then s
      else s.(done := seq(|s.done|, i => false), shutdown := false, phase := Starting(0))
    case StartWorker => s.(workers := s.workers[s.phase.next := Checking], phase := Starting(s.phase.next + 1))
    case StartFailed => s.(shutdown := true, owedAll := s.owedAll + 1, phase := Joining)
    case StartEnd => s.(phase := Settled)
  }

  /** One pass of a worker through the wait: leave for good, take a job, or sleep. */
  function TakeTurn(s: State, i: nat): State
    requires i < |s.workers| == |s.done|
  {
    var k := Pick(s);
    if s.shutdown && s.queue == [] then s.(workers := s.workers[i := Exited], done := s.done[i := true])
    else if k == |s.queue| then s.(workers := s.workers[i := Sleeping])
    else
      var job := s.queue[k];
      s.(queue := Remove(s.queue, k),
         workers := s.workers[i := Running(job)],
         activeImages := if job.kind == Image then s.activeImages + 1 else s.activeImages,
         fate := s.fate[job.id := RunningOn(i)],
         starts := s.starts + [job])
  }

  function ActiveTokens(ws: seq<Worker>): set<Token> {
    set i | 0 <= i < |ws| && ws[i].Running? :: ws[i].job.token
  }

  function QueuedTokens(q: seq<Job>): set<Token> {
    set k | 0 <= k < |q| :: q[k].token
  }

  function QueuedIds(q: seq<Job>): set<nat> {
    set k | 0 <= k < |q| :: q[k].id
  }

  function Condemn(fate: map<nat, Fate>, ids: set<nat>): (r: map<nat, Fate>)
    ensures r.Keys == fate.Keys
    ensures forall id :: id in fate ==> r[id] == if id in ids then Rejected else fate[id]
  {
    map id | id in fate :: if id in ids then Rejected else fate[id]
  }

  /** The first lock region of the bounded shutdown. */
  function RejectAll(s: State): State {
    s.(shutdown := true,
       cancelled := s.cancelled + ActiveTokens(s.workers) + QueuedTokens(s.queue),
       fate := Condemn(s.fate, QueuedIds(s.queue)),
       queue := [],
       owedAll := s.owedAll + 1,
       phase := Stopping)
  }
}
