/**
 When an armed action fires: the deadline that Arm writes, the order in which the timer
 takes entries out, and the order in which the executors run what is due.
 */
module WatchdogTiming {
  import opened WatchdogModel
  import opened WatchdogProofs

  // ----------------------------------------------------------------- one step

  /** A reservation succeeds below 256 and takes one unit of the budget. */
  lemma ReservesBelow256(s: State)
    ensures Apply(s, Reserve) == if s.pending < 256 then s.(pending := s.pending + 1, arming := s.arming + 1) else s
  {
  }

  /** The new entry stands alone under the time asked for; everything armed before stays. */
  lemma ArmsForTheTimeout(s: State, delay: nat, flag: Flag)
    requires KeyInv(s) && s.arming > 0 && !s.timerStop
    ensures var t, k := Apply(s, Insert(delay, flag)), Key(s.now + delay, s.nextSeq);
            && k !in s.deadlines && k in t.deadlines && t.deadlines == s.deadlines[k := t.deadlines[k]]
            && t.deadlines[k].due == t.deadlines[k].deadline == s.now + delay
            && t.deadlines[k].id == s.accepted && t.deadlines[k].flag == flag && !t.deadlines[k].owned
            && t.accepted == s.accepted + 1 && t.nextSeq == s.nextSeq + 1 && t.arming == s.arming - 1
            && t.pending == s.pending && t.flags == s.flags && t.timer == s.timer && t.delivered == s.delivered
  {
  }

  /** The timer takes only what is due, earliest deadline first and, among equals, armed first. */
  lemma PopsEarliest(s: State, key: Key)
    requires Enabled(s, TimerPop(key)) && KeyInv(s)
    ensures key in s.deadlines && key.deadline <= s.now
    ensures forall k :: k in s.deadlines ==>
              key.deadline < k.deadline || (key.deadline == k.deadline && key.order <= k.order)
    ensures var t := Apply(s, TimerPop(key));
            && key !in t.deadlines && s.deadlines == t.deadlines[key := s.deadlines[key]]
            && t.timer == Holding(s.deadlines[key]) && t.pending == s.pending && t.flags == s.flags
  {
  }

  /** A won entry is queued exactly while the executors are open and fewer than 64 actions wait. */
  lemma DeliversBelow64(s: State, e: Entry)
    requires s.timer == Won(e)
    ensures Apply(s, TimerDeliver) ==
            if !s.execStop && |s.queue| < 64
            then s.(timer := Watching, queue := s.queue + [e], delivered := s.delivered + [e])
            else s.(timer := Full(e))
  {
  }

  /** A refused entry comes back ten milliseconds later as its own, under a new key. */
  lemma RetriesInTen(s: State, e: Entry)
    requires KeyInv(s) && s.timer == Full(e) && !s.timerStop
    ensures var t, k := Apply(s, TimerRetry), Key(s.now + 10, s.nextSeq);
            && k !in s.deadlines && k in t.deadlines && t.deadlines == s.deadlines[k := t.deadlines[k]]
            && t.deadlines[k].deadline == s.now + 10 && t.deadlines[k].due == e.due
            && t.deadlines[k].id == e.id && t.deadlines[k].flag == e.flag && t.deadlines[k].owned
            && t.timer == Watching && t.pending == s.pending && t.nextSeq == s.nextSeq + 1
  {
  }

  /** The timer wins a free flag by setting it, keeps a flag it owns and yields to anyone else. */
  lemma ClaimsFreeFlag(s: State, e: Entry)
    requires s.timer == Holding(e)
    ensures var t := Apply(s, TimerClaim);
            && (t.timer == if e.owned || e.flag !in s.flags then Won(e) else Lost(e))
            && t.flags == (if e.owned then s.flags else s.flags + {e.flag})
            && t.deadlines == s.deadlines && t.pending == s.pending && t.delivered == s.delivered
  {
  }

  // ---------------------------------------------------- an entry over its life

  predicate Is(e: Entry, due: int, flag: Flag) { e.due == due && e.flag == flag }

  /** Wherever the entry `id` is, it was armed for `due` under `flag`. */
  ghost predicate EntryKept(s: State, id: nat, due: int, flag: Flag) {
    && id < s.accepted
    && (forall k :: k in s.deadlines && s.deadlines[k].id == id ==> Is(s.deadlines[k], due, flag))
    && (InHand(s.timer) == 1 && s.timer.entry.id == id ==> Is(s.timer.entry, due, flag))
    && (forall n :: 0 <= n < |s.delivered| && s.delivered[n].id == id ==> Is(s.delivered[n], due, flag))
  }

  lemma NewEntryIsKept(s: State, delay: nat, flag: Flag)
    requires IdInv(s) && s.arming > 0 && !s.timerStop
    ensures EntryKept(Apply(s, Insert(delay, flag)), s.accepted, s.now + delay, flag)
  {
    if InHand(s.timer) == 1 { assert IdInHand(s.timer)[0] == s.timer.entry.id; }
  }

  lemma EntryKeptStep(s: State, step: Step, id: nat, due: int, flag: Flag)
    requires EntryKept(s, id, due, flag) && Enabled(s, step)
    ensures EntryKept(Apply(s, step), id, due, flag)
  {
    if step.TimerPop? || step.TimerClaim? || step.TimerDeliver? || step.TimerRetry? {
      EntryKeptByTimer(s, step, id, due, flag);
    }
  }

  lemma EntryKeptByTimer(s: State, step: Step, id: nat, due: int, flag: Flag)
    requires EntryKept(s, id, due, flag) && Enabled(s, step)
    requires step.TimerPop? || step.TimerClaim? || step.TimerDeliver? || step.TimerRetry?
    ensures EntryKept(Apply(s, step), id, due, flag)
  {
  }

  /** Step `i` arms an action for `delay` milliseconds from now. */
  predicate Arms(states: seq<State>, steps: seq<Step>, i: nat, delay: nat, flag: Flag) {
    i < |steps| && i < |states| && steps[i] == Insert(delay, flag) && !states[i].timerStop
  }

  lemma {:induction false} ArmedIsKept(states: seq<State>, steps: seq<Step>, i: nat, k: nat, delay: nat, flag: Flag)
    requires IsRun(states, steps) && i < k < |states| && Arms(states, steps, i, delay, flag)
    ensures EntryKept(states[k], states[i].accepted, states[i].now + delay, flag)
  {
    hide Apply, Enabled, Inv, EntryKept;
    OneStep(states, steps, k - 1);
    if k == i + 1 {
      RunInv(states, steps, i);
      ArmingIsUnderWay(states[i], delay, flag);
      NewEntryIsKept(states[i], delay, flag);
    } else {
      ArmedIsKept(states, steps, i, k - 1, delay, flag);
      EntryKeptStep(states[k - 1], steps[k - 1], states[i].accepted, states[i].now + delay, flag);
    }
  }

  lemma ArmingIsUnderWay(s: State, delay: nat, flag: Flag)
    requires Enabled(s, Insert(delay, flag)) && Inv(s)
    ensures s.arming > 0 && IdInv(s)
  {
  }

  lemma OneStep(states: seq<State>, steps: seq<Step>, k: nat)
    requires IsRun(states, steps) && k < |steps|
    ensures |states| == |steps| + 1 && Enabled(states[k], steps[k]) && states[k + 1] == Apply(states[k], steps[k])
  {
    hide Apply, Enabled;
  }

  /** Over any run, what was armed fires under its own flag and never before its timeout has passed. */
  lemma NeverEarly(states: seq<State>, steps: seq<Step>, i: nat, k: nat, delay: nat, flag: Flag, n: nat)
    requires IsRun(states, steps) && i < k < |states| && Arms(states, steps, i, delay, flag)
    requires n < |states[k].delivered| && states[k].delivered[n].id == states[i].accepted
    ensures states[i].now + delay <= states[k].now && states[k].delivered[n].flag == flag
  {
    ArmedIsKept(states, steps, i, k, delay, flag);
    RunInv(states, steps, k);
    hide IsRun, Apply, Enabled;
    assert Is(states[k].delivered[n], states[i].now + delay, flag);
  }

  // ------------------------------------------------------------- cancellation

  /** The entry `id` is out of the timer's reach and was never queued. */
  ghost predicate OutOfReach(s: State, id: nat) {
    && id < s.accepted
    && (forall k :: k in s.deadlines ==> s.deadlines[k].id != id)
    && (InHand(s.timer) == 1 ==> s.timer.entry.id != id)
    && (forall n :: 0 <= n < |s.delivered| ==> s.delivered[n].id != id)
  }

  lemma CancelPutsOutOfReach(s: State, key: Key)
    requires IdInv(s) && key in s.deadlines
    ensures OutOfReach(Apply(s, CancelTake(key)), s.deadlines[key].id)
    ensures s.deadlines == Apply(s, CancelTake(key)).deadlines[key := s.deadlines[key]]
  {
    if InHand(s.timer) == 1 { assert IdInHand(s.timer)[0] == s.timer.entry.id; }
  }

  lemma StaysOutOfReach(s: State, step: Step, id: nat)
    requires OutOfReach(s, id) && Enabled(s, step)
    ensures OutOfReach(Apply(s, step), id)
  {
    if step.TimerPop? || step.TimerClaim? || step.TimerDeliver? || step.TimerRetry? {
      TimerStaysOutOfReach(s, step, id);
    }
  }

  lemma TimerStaysOutOfReach(s: State, step: Step, id: nat)
    requires OutOfReach(s, id) && Enabled(s, step)
    requires step.TimerPop? || step.TimerClaim? || step.TimerDeliver? || step.TimerRetry?
    ensures OutOfReach(Apply(s, step), id)
  {
  }

  /** Over any run, an action whose entry a Cancel took out of the map is never queued. */
  lemma {:induction false} CancelledNeverFires(states: seq<State>, steps: seq<Step>, i: nat, k: nat, key: Key)
    requires IsRun(states, steps) && i < k < |states| && i < |steps|
    requires steps[i] == CancelTake(key) && key in states[i].deadlines
    ensures OutOfReach(states[k], states[i].deadlines[key].id)
  {
    hide Apply, Enabled, Inv, OutOfReach;
    OneStep(states, steps, k - 1);
    if k == i + 1 {
      RunInv(states, steps, i);
      InvHasIds(states[i]);
      CancelPutsOutOfReach(states[i], key);
    } else {
      CancelledNeverFires(states, steps, i, k - 1, key);
      StaysOutOfReach(states[k - 1], steps[k - 1], states[i].deadlines[key].id);
    }
  }

  lemma InvHasIds(s: State)
    requires Inv(s)
    ensures IdInv(s)
  {
  }

  // --------------------------------------------------------- order of execution

  /** The executor queue is the end of what was delivered: actions start in delivery order. */
  predicate QueueIsTail(s: State) {
    |s.queue| <= |s.delivered| && s.queue == s.delivered[|s.delivered| - |s.queue|..]
  }

  lemma TailHandedOn(s: State, step: Step)
    requires QueueIsTail(s) && Enabled(s, step) && (step.TimerDeliver? || step.ExecutorTake?)
    ensures QueueIsTail(Apply(s, step))
  {
  }

  lemma NobodyElseQueues(s: State, step: Step)
    requires Enabled(s, step) && !step.TimerDeliver? && !step.ExecutorTake?
    ensures Apply(s, step).queue == s.queue && Apply(s, step).delivered == s.delivered
  {
  }

  lemma TailStep(s: State, step: Step)
    requires QueueIsTail(s) && Enabled(s, step)
    ensures QueueIsTail(Apply(s, step))
  {
    hide Apply, Enabled;
    if step.TimerDeliver? || step.ExecutorTake? { TailHandedOn(s, step); } else { NobodyElseQueues(s, step); }
  }

  lemma {:induction false} QueueStaysTail(states: seq<State>, steps: seq<Step>, k: nat)
    requires IsRun(states, steps) && k < |states|
    ensures QueueIsTail(states[k])
  {
    if k > 0 {
      hide Apply, Enabled, QueueIsTail;
      QueueStaysTail(states, steps, k - 1);
      TailStep(states[k - 1], steps[k - 1]);
    } else {
      StartsAtInit(states, steps);
    }
  }

  lemma StartsAtInit(states: seq<State>, steps: seq<Step>)
    requires IsRun(states, steps)
    ensures |states| > 0 && states[0] == Init(states[0].now)
  {
  }

  /** How many actions an executor has taken by then: everything delivered that is not waiting. */
  function Taken(s: State): int { |s.delivered| - |s.queue| }

  /** The n-th action taken is the n-th delivered, whichever executor takes it. */
  lemma TakenInDeliveryOrder(states: seq<State>, steps: seq<Step>, k: nat)
    requires IsRun(states, steps) && k < |steps| && steps[k].ExecutorTake?
    ensures var s, t := states[k], states[k + 1];
            && 0 <= Taken(s) < |s.delivered| && Taken(t) == Taken(s) + 1
            && t.running == s.running + [s.delivered[Taken(s)]]
  {
    QueueStaysTail(states, steps, k);
    OneStep(states, steps, k);
  }
}
