/**
 The deadline watchdog as a state machine: a lock region or an atomic operation is one
 step. The budget `pending` is spread over the reservations of Arm, the deadline map,
 entries in the hands of Cancel, the destructor and the timer, the executor queue and
 the running actions.
 */
module WatchdogModel {
  import opened Counting

  const MAX_PENDING: nat := 256
  const QUEUE_CAP: nat := 64
  const EXECUTORS: nat := 4
  const RETRY_DELAY: nat := 10
  const WORD: nat := 0x1_0000_0000_0000_0000

  type Flag = nat

  datatype Key = Key(deadline: int, order: nat)

  /** `id` numbers the accepted arms, `due` is the deadline that Arm set. */
  datatype Entry = Entry(id: nat, due: int, deadline: int, order: nat, flag: Flag, owned: bool)

  /** Where the timer thread stands between two of its steps. */
  datatype Timer =
    | Watching
    | Holding(entry: Entry)  // taken from the map, claim not yet decided
    | Lost(entry: Entry)     // the job had the claim, budget not yet released
    | Won(entry: Entry)      // claim held, about to deliver
    | Full(entry: Entry)     // delivery refused, about to re-arm
    | Stopped

  datatype Destructor = Alive | Swapped | Released | Silenced

  datatype State = State(
    deadlines: map<Key, Entry>,
    nextSeq: nat,
    timerStop: bool,
    queue: seq<Entry>,
    execStop: bool,
    pending: nat,
    flags: set<Flag>,         // claim flags that are true
    now: int,
    arming: nat,              // Arm calls between admission and insertion
    cancelling: seq<Entry>,   // entries in the hands of Cancel calls
    retired: map<Key, Entry>, // the destructor's batch
    destructor: Destructor,
    timer: Timer,
    running: seq<Entry>,
    accepted: nat,
    delivered: seq<Entry>)    // history: everything ever queued for execution

  datatype Step =
    | Reserve
    | Insert(delay: nat, flag: Flag)
    | InsertFails
    | CancelTake(key: Key)
    | CancelRelease(index: nat)
    | DestroySwap
    | DestroyRelease
    | DestroySilence
    | TimerPop(key: Key)
    | TimerQuit
    | TimerClaim
    | TimerDrop
    | TimerDeliver
    | TimerRetry
    | ExecutorTake
    | ExecutorDone(index: nat)
    | SetFlag(flag: Flag)
    | Tick(delta: nat)

  predicate Before(a: Key, b: Key) {
    a.deadline < b.deadline || (a.deadline == b.deadline && a.order <= b.order)
  }

  /** The key `begin()` of the ordered map points at. */
  predicate IsFirst(deadlines: map<Key, Entry>, key: Key) {
    key in deadlines && forall k :: k in deadlines ==> Before(key, k)
  }

  /** An unsigned fetch_sub. */
  function Release(pending: nat, n: nat): nat { (pending - n) % WORD }

  function InHand(t: Timer): nat { if t.Watching? || t.Stopped? then 0 else 1 }

  function KeyOf(e: Entry): Key { Key(e.deadline, e.order) }

  function Fresh(s: State, delay: nat, flag: Flag): Entry {
    Entry(s.accepted, s.now + delay, s.now + delay, s.nextSeq, flag, false)
  }

  function Rearmed(s: State, e: Entry): Entry {
    e.(deadline := s.now + RETRY_DELAY, order := s.nextSeq, owned := true)
  }

  function Init(now: int): State {
    State(map[], 1, false, [], false, 0, {}, now, 0, [], map[], Alive, Watching, [], 0, [])
  }

  predicate Enabled(s: State, step: Step) {
    match step
    case Reserve => true
    case Insert(_, _) => s.arming > 0
    case InsertFails => s.arming > 0
    case CancelTake(key) => key in s.deadlines
    case CancelRelease(i) => i < |s.cancelling|
    case DestroySwap => s.destructor.Alive?
    case DestroyRelease => s.destructor.Swapped?
    case DestroySilence => s.destructor.Released?
    case TimerPop(key) =>
      s.timer.Watching? && !s.timerStop && IsFirst(s.deadlines, key) && s.deadlines[key].deadline <= s.now
    case TimerQuit => s.timer.Watching? && s.timerStop
    case TimerClaim => s.timer.Holding?
    case TimerDrop => s.timer.Lost?
    case TimerDeliver => s.timer.Won?
    case TimerRetry => s.timer.Full?
    case ExecutorTake => s.queue != [] && |s.running| < EXECUTORS
    case ExecutorDone(i) => i < |s.running|
    case SetFlag(_) => true
    case Tick(_) => true
  }

  function Apply(s: State, step: Step): State
    requires Enabled(s, step)
  {
    match step
    case Reserve =>
      if s.pending >= MAX_PENDING then s
      else s.(pending := (s.pending + 1) % WORD, arming := s.arming + 1)
    case Insert(delay, flag) =>
      if s.timerStop then s.(arming := s.arming - 1, pending := Release(s.pending, 1))
      else
        var e := Fresh(s, delay, flag);
        s.(arming := s.arming - 1, deadlines := s.deadlines[KeyOf(e) := e],
           nextSeq := s.nextSeq + 1, accepted := s.accepted + 1)
    case InsertFails => s.(arming := s.arming - 1, pending := Release(s.pending, 1))
    case CancelTake(key) => s.(deadlines := s.deadlines - {key}, cancelling := s.cancelling + [s.deadlines[key]])
    case CancelRelease(i) => s.(cancelling := Remove(s.cancelling, i), pending := Release(s.pending, 1))
    case DestroySwap => s.(timerStop := true, retired := s.deadlines, deadlines := map[], destructor := Swapped)
    case DestroyRelease => s.(pending := Release(s.pending, |s.retired|), retired := map[], destructor := Released)
    case DestroySilence => s.(execStop := true, destructor := Silenced)
    case TimerPop(key) => s.(deadlines := s.deadlines - {key}, timer := Holding(s.deadlines[key]))
    case TimerQuit => s.(timer := Stopped)
    case TimerClaim =>
      var e := s.timer.entry;
      if e.owned then s.(timer := Won(e))
      else if e.flag in s.flags then s.(timer := Lost(e))
      else s.(timer := Won(e), flags := s.flags + {e.flag})
    case TimerDrop => s.(timer := Watching, pending := Release(s.pending, 1))
    case TimerDeliver =>
      var e := s.timer.entry;
      if !s.execStop && |s.queue| < QUEUE_CAP
      then s.(timer := Watching, queue := s.queue + [e], delivered := s.delivered + [e])
      else s.(timer := Full(e))
    case TimerRetry =>
      if s.timerStop then s.(timer := Stopped, pending := Release(s.pending, 1))
      else
        var e := Rearmed(s, s.timer.entry);
        s.(timer := Watching, deadlines := s.deadlines[KeyOf(e) := e], nextSeq := s.nextSeq + 1)
    case ExecutorTake => s.(queue := s.queue[1..], running := s.running + [s.queue[0]])
    case ExecutorDone(i) => s.(running := Remove(s.running, i), pending := Release(s.pending, 1))
    case SetFlag(flag) => s.(flags := s.flags + {flag})
    case Tick(delta) => s.(now := s.now + delta)
  }
}
