/**
 The condition variables of the watchdog, laid over its state machine: who sleeps, until
 when, and which notifications are still to be sent. A run of this machine is a run of the
 plain one with waits in between.
 */
module WatchdogWakeups {
  import opened Wrappers
  import opened WatchdogModel
  import opened WatchdogProofs

  /** The timer's wait: none, for the map to fill, or until a deadline. */
  datatype Sleep = Up | OnEmpty | Until(deadline: int)

  datatype Wired = Wired(
    core: State,
    sleep: Sleep,
    heapOwed: nat,     // threads that have not notified the timer yet
    idle: nat,         // executors about to look at the queue
    asleep: nat,       // executors blocked on the queue
    execOwed: nat,     // deliveries that have not called notify_one yet
    execOwedAll: nat)  // whether notify_all is still to come after the stop

  datatype Event =
    | Does(step: Step)
    | TimerSleeps(first: Option<Key>)
    | HeapNotify
    | TimerWakes(spurious: bool)
    | ExecutorSleeps
    | ExecutorNotify
    | ExecutorNotifyAll
    | ExecutorWakes
    | ExecutorLeaves

  function Start(now: int): Wired { Wired(Init(now), Up, 0, EXECUTORS, 0, 0, 0) }

  predicate Possible(w: Wired, e: Event) {
    match e
    case Does(step) =>
      && Enabled(w.core, step)
      && (step.TimerPop? || step.TimerQuit? ==> w.sleep.Up?)
      && (step.ExecutorTake? ==> w.idle > 0)
    case TimerSleeps(first) =>
      && w.core.timer.Watching? && w.sleep.Up? && !w.core.timerStop
      && (if first.None? then w.core.deadlines == map[]
          else IsFirst(w.core.deadlines, first.value) && first.value.deadline > w.core.now)
    case HeapNotify => w.heapOwed > 0
    case TimerWakes(spurious) => !w.sleep.Up? && (spurious || (w.sleep.Until? && w.sleep.deadline <= w.core.now))
    case ExecutorSleeps => w.idle > 0 && w.core.queue == [] && !w.core.execStop
    case ExecutorNotify => w.execOwed > 0
    case ExecutorNotifyAll => w.execOwedAll > 0
    case ExecutorWakes => w.asleep > 0
    case ExecutorLeaves => w.idle > 0 && w.core.queue == [] && w.core.execStop
  }

  /** The steps that end with a notification of the timer: an insertion by Arm, Cancel, the destructor. */
  predicate TellsTimer(s: State, step: Step) {
    (step.Insert? && !s.timerStop) || step.CancelTake? || step.DestroySwap?
  }

  predicate QueuesAction(s: State, step: Step) {
    step.TimerDeliver? && !s.execStop && |s.queue| < QUEUE_CAP
  }

  function Next(w: Wired, e: Event): Wired
    requires Possible(w, e)
  {
    match e
    case Does(step) =>
      w.(core := Apply(w.core, step),
         heapOwed := if TellsTimer(w.core, step) then w.heapOwed + 1 else w.heapOwed,
         execOwed := if QueuesAction(w.core, step) then w.execOwed + 1 else w.execOwed,
         execOwedAll := if step.DestroySilence? then w.execOwedAll + 1 else w.execOwedAll,
         idle := if step.ExecutorTake? then w.idle - 1 else if step.ExecutorDone? then w.idle + 1 else w.idle)
    case TimerSleeps(first) => w.(sleep := if first.None? then OnEmpty else Until(first.value.deadline))
    case HeapNotify => w.(heapOwed := w.heapOwed - 1, sleep := Up)
    case TimerWakes(_) => w.(sleep := Up)
    case ExecutorSleeps => w.(idle := w.idle - 1, asleep := w.asleep + 1)
    case ExecutorNotify =>
      if w.asleep > 0 then w.(execOwed := w.execOwed - 1, asleep := w.asleep - 1, idle := w.idle + 1)
      else w.(execOwed := w.execOwed - 1)
    case ExecutorNotifyAll => w.(execOwedAll := w.execOwedAll - 1, asleep := 0, idle := w.idle + w.asleep)
    case ExecutorWakes => w.(asleep := w.asleep - 1, idle := w.idle + 1)
    case ExecutorLeaves => w.(idle := w.idle - 1)
  }

  // ---------------------------------------------------------------- invariants

  /** A timer that sleeps has nothing earlier to do, or a notification is on its way. */
  ghost predicate TimerInv(w: Wired) {
    && (!w.sleep.Up? ==> w.core.timer.Watching?)
    && (!w.sleep.Up? && w.core.timerStop ==> w.heapOwed > 0)
    && (w.sleep.OnEmpty? && w.heapOwed == 0 ==> w.core.deadlines == map[])
    && (w.sleep.Until? && w.heapOwed == 0 ==> forall k :: k in w.core.deadlines ==> w.sleep.deadline <= k.deadline)
  }

  /** While an executor sleeps, every queued action has an executor or a notification. */
  predicate ExecutorInv(w: Wired) {
    && (w.asleep > 0 && w.execOwedAll == 0 ==> !w.core.execStop && |w.core.queue| <= w.idle + w.execOwed)
    && w.idle + w.asleep + |w.core.running| <= EXECUTORS
  }

  lemma TimerDoes(w: Wired, step: Step)
    requires TimerInv(w) && Possible(w, Does(step))
    ensures TimerInv(Next(w, Does(step)))
  {
    var t := Apply(w.core, step);
    if !w.sleep.Up? && !TellsTimer(w.core, step) {
      SleepingTimer(w.core, step);
    }
  }

  /** Behind the back of a sleeping timer only its notifiers add to the map or stop it. */
  lemma SleepingTimer(s: State, step: Step)
    requires Enabled(s, step) && s.timer.Watching? && !step.TimerPop? && !step.TimerQuit? && !TellsTimer(s, step)
    ensures var t := Apply(s, step);
            t.deadlines == s.deadlines && t.timerStop == s.timerStop && t.timer == s.timer
  {
  }

  lemma ExecutorDoes(w: Wired, step: Step)
    requires ExecutorInv(w) && Possible(w, Does(step))
    ensures ExecutorInv(Next(w, Does(step)))
  {
    if !step.TimerDeliver? && !step.ExecutorTake? && !step.ExecutorDone? && !step.DestroySilence? {
      QuietForExecutors(w.core, step);
    }
  }

  lemma QuietForExecutors(s: State, step: Step)
    requires Enabled(s, step)
    requires !step.TimerDeliver? && !step.ExecutorTake? && !step.ExecutorDone? && !step.DestroySilence?
    ensures var t := Apply(s, step);
            t.queue == s.queue && t.running == s.running && t.execStop == s.execStop
  {
  }

  lemma EventInv(w: Wired, e: Event)
    requires TimerInv(w) && ExecutorInv(w) && Possible(w, e)
    ensures TimerInv(Next(w, e)) && ExecutorInv(Next(w, e))
  {
    hide Apply, Enabled;
    if e.Does? {
      TimerDoes(w, e.step);
      ExecutorDoes(w, e.step);
    }
  }

  // ---------------------------------------------------------------------- runs

  ghost predicate IsWiredRun(run: seq<Wired>, events: seq<Event>) {
    && |run| == |events| + 1
    && run[0] == Start(run[0].core.now)
    && forall i :: 0 <= i < |events| ==> Possible(run[i], events[i]) && run[i + 1] == Next(run[i], events[i])
  }

  /** The waits change nothing underneath: all that the watchdog keeps, it keeps here. */
  lemma {:induction false} WiredRunInv(run: seq<Wired>, events: seq<Event>, i: nat)
    requires IsWiredRun(run, events) && i < |run|
    ensures TimerInv(run[i]) && ExecutorInv(run[i]) && Inv(run[i].core)
  {
    hide Apply, Enabled, TimerInv, ExecutorInv, Inv;
    if i == 0 {
      StartInv(run[0].core.now);
    } else {
      WiredRunInv(run, events, i - 1);
      EventInv(run[i - 1], events[i - 1]);
      if events[i - 1].Does? { StepInv(run[i - 1].core, events[i - 1].step); }
    }
  }

  lemma StartInv(now: int)
    ensures TimerInv(Start(now)) && ExecutorInv(Start(now)) && Inv(Start(now).core)
  {
    assert IsRun([Init(now)], []);
    RunInv([Init(now)], [], 0);
  }

  /**
   No deadline is slept through: while an entry is due, the timer is up, has slept its time,
   or is about to be notified. It does not sleep through a stop either.
   */
  lemma DueEntryWakesTimer(run: seq<Wired>, events: seq<Event>, i: nat, key: Key)
    requires IsWiredRun(run, events) && i < |run|
    ensures var w := run[i];
            && (key in w.core.deadlines && key.deadline <= w.core.now ==>
                  w.sleep.Up? || w.heapOwed > 0 || (w.sleep.Until? && w.sleep.deadline <= w.core.now))
            && (w.core.timerStop ==> w.sleep.Up? || w.heapOwed > 0)
  {
    WiredRunInv(run, events, i);
  }

  /** No queued action is stranded: an executor that sleeps beside it is not needed, or will be woken. */
  lemma QueuedActionWakesExecutor(run: seq<Wired>, events: seq<Event>, i: nat)
    requires IsWiredRun(run, events) && i < |run| && run[i].asleep > 0
    ensures var w := run[i];
            && (w.core.queue != [] ==> w.idle > 0 || w.execOwed > 0 || w.execOwedAll > 0)
            && (w.execOwedAll == 0 ==> |w.core.queue| <= w.idle + w.execOwed)
            && (w.core.execStop ==> w.execOwedAll > 0)
  {
    WiredRunInv(run, events, i);
  }
}
