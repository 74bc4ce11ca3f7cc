/**
 What every interleaving of the watchdog's threads keeps.
 */
module WatchdogProofs {
  import opened WatchdogModel

  // ------------------------------------------------------------ invariants

  /** The places a unit of budget can be, added up. */
  function Spread(s: State): nat {
    s.arming + |s.deadlines| + |s.cancelling| + |s.retired| + InHand(s.timer) + |s.queue| + |s.running|
  }

  predicate BudgetInv(s: State) {
    && s.pending == Spread(s)
    && s.pending <= MAX_PENDING
    && |s.queue| <= QUEUE_CAP
    && |s.running| <= EXECUTORS
  }

  predicate KeyInv(s: State) {
    && (forall k :: k in s.deadlines ==> KeyOf(s.deadlines[k]) == k && k.order < s.nextSeq)
    && (s.timerStop ==> s.deadlines == map[])
    && (s.timerStop <==> !s.destructor.Alive?)
    && (!s.destructor.Swapped? ==> s.retired == map[])
  }

  /** The timer holds an entry whose claim is already taken on its behalf. */
  predicate HoldsClaim(t: Timer) {
    t.Won? || t.Full? || (t.Holding? && t.entry.owned)
  }

  predicate Queued(s: State, f: Flag) {
    exists n :: 0 <= n < |s.delivered| && s.delivered[n].flag == f
  }

  /** A claim won by the watchdog has one bearer: an owned entry, the timer's hand or a delivery. */
  ghost predicate ClaimInv(s: State) {
    && (forall k :: k in s.deadlines && s.deadlines[k].owned ==>
          s.deadlines[k].flag in s.flags && !Queued(s, s.deadlines[k].flag))
    && (forall j, k | j in s.deadlines && k in s.deadlines && j != k :: s.deadlines[j].owned && s.deadlines[k].owned ==>
          s.deadlines[j].flag != s.deadlines[k].flag)
    && (HoldsClaim(s.timer) ==>
          && s.timer.entry.flag in s.flags
          && !Queued(s, s.timer.entry.flag)
          && forall k :: k in s.deadlines && s.deadlines[k].owned ==> s.deadlines[k].flag != s.timer.entry.flag)
    && (forall n :: 0 <= n < |s.delivered| ==> s.delivered[n].flag in s.flags)
    && (forall m, n :: 0 <= m < n < |s.delivered| ==> s.delivered[m].flag != s.delivered[n].flag)
  }

  /** Nothing is handed on before the deadline that Arm set for it. */
  ghost predicate DueInv(s: State) {
    && (forall k :: k in s.deadlines ==> s.deadlines[k].due <= k.deadline)
    && (InHand(s.timer) == 1 ==> s.timer.entry.due <= s.now)
    && (forall n :: 0 <= n < |s.delivered| ==> s.delivered[n].due <= s.now)
  }

  function IdInHand(t: Timer): seq<nat> { if InHand(t) == 1 then [t.entry.id] else [] }

  /** An id names one entry: it has one key, or is in hand, or was delivered once. */
  ghost predicate Ids(deadlines: map<Key, Entry>, hand: seq<nat>, delivered: seq<Entry>, accepted: nat) {
    && (forall k :: k in deadlines ==> deadlines[k].id < accepted && deadlines[k].id !in hand)
    && (forall j, k :: j in deadlines && k in deadlines && deadlines[j].id == deadlines[k].id ==> j == k)
    && (forall i :: 0 <= i < |hand| ==> hand[i] < accepted)
    && (forall n :: 0 <= n < |delivered| ==> delivered[n].id < accepted && delivered[n].id !in hand)
    && (forall n, k :: 0 <= n < |delivered| && k in deadlines ==> delivered[n].id != deadlines[k].id)
    && (forall m, n :: 0 <= m < n < |delivered| ==> delivered[m].id != delivered[n].id)
  }

  ghost predicate IdInv(s: State) {
    Ids(s.deadlines, IdInHand(s.timer), s.delivered, s.accepted)
  }

  /** The timer gives an entry up only because its flag had been taken by someone else. */
  predicate LostInv(s: State) {
    s.timer.Lost? ==> s.timer.entry.flag in s.flags && !s.timer.entry.owned
  }

  ghost predicate Inv(s: State) {
    BudgetInv(s) && KeyInv(s) && ClaimInv(s) && DueInv(s) && IdInv(s) && LostInv(s)
  }

  // ---------------------------------------------------------------- steps

  lemma CardRemove<K, V>(m: map<K, V>, k: K)
    requires k in m
    ensures |m - {k}| == |m| - 1
  {
    assert m == (m - {k})[k := m[k]];
  }

  /** A subtraction that the budget covers does not wrap around. */
  lemma ReleaseExact(pending: nat, n: nat)
    requires n <= pending <= MAX_PENDING
    ensures Release(pending, n) == pending - n
  {
  }

  /** The steps that give budget back. */
  predicate Gives(s: State, step: Step) {
    || (step.Insert? && s.timerStop) || step.InsertFails? || step.CancelRelease? || step.DestroyRelease?
    || step.TimerDrop? || (step.TimerRetry? && s.timerStop) || step.ExecutorDone?
  }

  lemma BudgetGives(s: State, step: Step)
    requires BudgetInv(s) && Enabled(s, step) && Gives(s, step)
    ensures BudgetInv(Apply(s, step))
    ensures Apply(s, step).pending == s.pending - if step.DestroyRelease? then |s.retired| else 1
  {
    ReleaseExact(s.pending, if step.DestroyRelease? then |s.retired| else 1);
  }

  lemma BudgetInsert(s: State, step: Step)
    requires BudgetInv(s) && KeyInv(s) && Enabled(s, step) && !s.timerStop && (step.Insert? || step.TimerRetry?)
    ensures BudgetInv(Apply(s, step)) && Apply(s, step).pending == s.pending
  {
    match step
    case Insert(delay, flag) => assert KeyOf(Fresh(s, delay, flag)) !in s.deadlines;
    case TimerRetry => assert KeyOf(Rearmed(s, s.timer.entry)) !in s.deadlines;
  }

  /** Taking an entry out of the map moves its unit into the taker's hand. */
  lemma BudgetTakes(s: State, step: Step)
    requires BudgetInv(s) && Enabled(s, step) && (step.CancelTake? || step.TimerPop?)
    ensures BudgetInv(Apply(s, step)) && Apply(s, step).pending == s.pending
  {
    CardRemove(s.deadlines, step.key);
  }

  lemma BudgetMoves(s: State, step: Step)
    requires BudgetInv(s) && Enabled(s, step)
    requires step.TimerQuit? || step.TimerClaim? || step.TimerDeliver? || step.ExecutorTake? || step.SetFlag?
          || step.Tick? || step.DestroySilence?
    ensures BudgetInv(Apply(s, step)) && Apply(s, step).pending == s.pending
  {
    if step.TimerDeliver? || step.ExecutorTake? { BudgetHandsOn(s, step); } else { BudgetStays(s, step); }
  }

  lemma BudgetHandsOn(s: State, step: Step)
    requires BudgetInv(s) && Enabled(s, step) && (step.TimerDeliver? || step.ExecutorTake?)
    ensures BudgetInv(Apply(s, step)) && Apply(s, step).pending == s.pending
  {
  }

  lemma BudgetStays(s: State, step: Step)
    requires BudgetInv(s) && Enabled(s, step)
    requires step.TimerQuit? || step.TimerClaim? || step.SetFlag? || step.Tick? || step.DestroySilence?
    ensures BudgetInv(Apply(s, step)) && Apply(s, step).pending == s.pending
  {
  }

  lemma BudgetAdmits(s: State, step: Step)
    requires BudgetInv(s) && KeyInv(s) && Enabled(s, step) && (step.Reserve? || step.DestroySwap?)
    ensures BudgetInv(Apply(s, step)) && 0 <= Apply(s, step).pending - s.pending <= 1
  {
  }

  lemma BudgetStep(s: State, step: Step)
    requires BudgetInv(s) && KeyInv(s) && Enabled(s, step)
    ensures BudgetInv(Apply(s, step))
    ensures -1 - |s.retired| <= Apply(s, step).pending - s.pending <= 1
  {
    if Gives(s, step) {
      BudgetGives(s, step);
    } else if step.Insert? || step.TimerRetry? {
      BudgetInsert(s, step);
    } else if step.CancelTake? || step.TimerPop? {
      BudgetTakes(s, step);
    } else if step.Reserve? || step.DestroySwap? {
      BudgetAdmits(s, step);
    } else {
      BudgetMoves(s, step);
    }
  }

  lemma KeyStep(s: State, step: Step)
    requires KeyInv(s) && Enabled(s, step)
    ensures KeyInv(Apply(s, step))
  {
  }

  lemma DueStep(s: State, step: Step)
    requires KeyInv(s) && DueInv(s) && Enabled(s, step)
    ensures DueInv(Apply(s, step))
  {
  }

  lemma LostStep(s: State, step: Step)
    requires LostInv(s) && Enabled(s, step)
    ensures LostInv(Apply(s, step))
  {
  }

  lemma IdsInsert(d: map<Key, Entry>, key: Key, e: Entry, hand: seq<nat>, out: seq<Entry>, accepted: nat)
    requires Ids(d, hand, out, accepted) && key !in d && e.id == accepted
    ensures Ids(d[key := e], hand, out, accepted + 1)
  {
  }

  lemma IdsReturn(d: map<Key, Entry>, key: Key, e: Entry, out: seq<Entry>, accepted: nat)
    requires Ids(d, [e.id], out, accepted) && key !in d
    ensures Ids(d[key := e], [], out, accepted)
  {
    assert e.id in [e.id];
  }

  lemma IdsPop(d: map<Key, Entry>, key: Key, out: seq<Entry>, accepted: nat)
    requires Ids(d, [], out, accepted) && key in d
    ensures Ids(d - {key}, [d[key].id], out, accepted)
  {
  }

  lemma IdsDeliver(d: map<Key, Entry>, e: Entry, out: seq<Entry>, accepted: nat)
    requires Ids(d, [e.id], out, accepted)
    ensures Ids(d, [], out + [e], accepted)
  {
    assert e.id in [e.id];
  }

  lemma IdsShrink(d: map<Key, Entry>, gone: set<Key>, hand: seq<nat>, out: seq<Entry>, accepted: nat)
    requires Ids(d, hand, out, accepted)
    ensures Ids(d - gone, hand, out, accepted) && Ids(d, [], out, accepted)
  {
  }

  lemma IdStep(s: State, step: Step)
    requires IdInv(s) && KeyInv(s) && Enabled(s, step)
    ensures IdInv(Apply(s, step))
  {
    hide Ids;
    if (step.Insert? || step.TimerRetry?) && !s.timerStop {
      IdEnter(s, step);
    } else if step.TimerPop? || step.CancelTake? || step.DestroySwap? || step.TimerDeliver? {
      IdLeave(s, step);
    } else {
      IdsShrink(s.deadlines, {}, IdInHand(s.timer), s.delivered, s.accepted);
    }
  }

  lemma IdEnter(s: State, step: Step)
    requires IdInv(s) && KeyInv(s) && Enabled(s, step) && (step.Insert? || step.TimerRetry?) && !s.timerStop
    ensures IdInv(Apply(s, step))
  {
    hide Ids;
    if step.Insert? {
      var e := Fresh(s, step.delay, step.flag);
      assert KeyOf(e) !in s.deadlines;
      IdsInsert(s.deadlines, KeyOf(e), e, IdInHand(s.timer), s.delivered, s.accepted);
    } else {
      var e := Rearmed(s, s.timer.entry);
      assert KeyOf(e) !in s.deadlines;
      IdsReturn(s.deadlines, KeyOf(e), e, s.delivered, s.accepted);
    }
  }

  lemma IdLeave(s: State, step: Step)
    requires IdInv(s) && Enabled(s, step)
    requires step.TimerPop? || step.CancelTake? || step.DestroySwap? || step.TimerDeliver?
    ensures IdInv(Apply(s, step))
  {
    hide Ids;
    if step.TimerPop? {
      IdsPop(s.deadlines, step.key, s.delivered, s.accepted);
    } else if step.TimerDeliver? {
      IdsDeliver(s.deadlines, s.timer.entry, s.delivered, s.accepted);
    } else if step.CancelTake? {
      IdsShrink(s.deadlines, {step.key}, IdInHand(s.timer), s.delivered, s.accepted);
    } else {
      IdsShrink(s.deadlines, s.deadlines.Keys, IdInHand(s.timer), s.delivered, s.accepted);
      assert s.deadlines - s.deadlines.Keys == map[];
    }
  }

  lemma ClaimStep(s: State, step: Step)
    requires KeyInv(s) && ClaimInv(s) && Enabled(s, step)
    ensures ClaimInv(Apply(s, step))
  {
    var t := Apply(s, step);
    if step.TimerDeliver? {
      ClaimDeliver(s);
    } else {
      assert t.delivered == s.delivered;
      forall f ensures Queued(t, f) == Queued(s, f) {}
      ClaimMove(s, step);
    }
  }

  lemma ClaimMove(s: State, step: Step)
    requires KeyInv(s) && ClaimInv(s) && Enabled(s, step) && !step.TimerDeliver?
    requires forall f :: Queued(Apply(s, step), f) == Queued(s, f)
    ensures ClaimInv(Apply(s, step))
  {
    if step.TimerRetry? && !s.timerStop {
      ClaimRearm(s);
    } else if step.TimerPop? || step.CancelTake? || step.Insert? {
      ClaimMap(s, step);
    } else {
      ClaimRest(s, step);
    }
  }

  lemma ClaimRearm(s: State)
    requires KeyInv(s) && ClaimInv(s) && Enabled(s, TimerRetry) && !s.timerStop
    requires forall f :: Queued(Apply(s, TimerRetry), f) == Queued(s, f)
    ensures ClaimInv(Apply(s, TimerRetry))
  {
    var t := Apply(s, TimerRetry);
    var key := KeyOf(Rearmed(s, s.timer.entry));
    assert forall k :: k in t.deadlines && k != key ==> k in s.deadlines && t.deadlines[k] == s.deadlines[k];
  }

  lemma ClaimMap(s: State, step: Step)
    requires KeyInv(s) && ClaimInv(s) && Enabled(s, step) && (step.TimerPop? || step.CancelTake? || step.Insert?)
    requires forall f :: Queued(Apply(s, step), f) == Queued(s, f)
    ensures ClaimInv(Apply(s, step))
  {
    var t := Apply(s, step);
    assert forall k :: k in t.deadlines && t.deadlines[k].owned ==>
        k in s.deadlines && t.deadlines[k] == s.deadlines[k];
  }

  lemma ClaimRest(s: State, step: Step)
    requires KeyInv(s) && ClaimInv(s) && Enabled(s, step) && !step.TimerDeliver?
    requires !step.TimerPop? && !step.CancelTake? && !step.Insert? && (step.TimerRetry? ==> s.timerStop)
    requires forall f :: Queued(Apply(s, step), f) == Queued(s, f)
    ensures ClaimInv(Apply(s, step))
  {
    hide Queued;
    if step.TimerClaim? { ClaimWon(s); }
  }

  lemma ClaimWon(s: State)
    requires ClaimInv(s) && Enabled(s, TimerClaim)
    requires forall f :: Queued(Apply(s, TimerClaim), f) == Queued(s, f)
    ensures ClaimInv(Apply(s, TimerClaim))
  {
    if !s.timer.entry.owned && s.timer.entry.flag !in s.flags {
      // A flag that was still false has never been queued and no entry owns it.
      assert !Queued(s, s.timer.entry.flag);
    }
  }

  lemma ClaimDeliver(s: State)
    requires ClaimInv(s) && s.timer.Won?
    ensures ClaimInv(Apply(s, TimerDeliver))
  {
    var t := Apply(s, TimerDeliver);
    var e := s.timer.entry;
    if t.timer.Watching? {
      forall f ensures Queued(t, f) <==> Queued(s, f) || f == e.flag {
        if Queued(s, f) {
          var n :| 0 <= n < |s.delivered| && s.delivered[n].flag == f;
          assert t.delivered[n].flag == f;
        }
        if f == e.flag { assert t.delivered[|s.delivered|].flag == f; }
      }
    } else {
      forall f ensures Queued(t, f) == Queued(s, f) {}
    }
  }

  lemma StepInv(s: State, step: Step)
    requires Inv(s) && Enabled(s, step)
    ensures Inv(Apply(s, step))
  {
    BudgetStep(s, step);
    KeyStep(s, step);
    ClaimStep(s, step);
    DueStep(s, step);
    IdStep(s, step);
    LostStep(s, step);
  }

  // ------------------------------------------------------------------ runs

  ghost predicate IsRun(states: seq<State>, steps: seq<Step>) {
    && |states| == |steps| + 1
    && states[0] == Init(states[0].now)
    && forall k :: 0 <= k < |steps| ==> Enabled(states[k], steps[k]) && states[k + 1] == Apply(states[k], steps[k])
  }

  lemma {:induction false} RunInv(states: seq<State>, steps: seq<Step>, k: nat)
    requires IsRun(states, steps) && k < |states|
    ensures Inv(states[k])
  {
    if k > 0 {
      RunInv(states, steps, k - 1);
      StepInv(states[k - 1], steps[k - 1]);
    }
  }

  /** The budget is conserved in every reachable state, never underflows and never exceeds the cap. */
  lemma BudgetConserved(states: seq<State>, steps: seq<Step>, k: nat)
    requires IsRun(states, steps) && k < |states|
    ensures var s := states[k];
            && s.pending == s.arming + |s.deadlines| + |s.cancelling| + |s.retired|
                            + InHand(s.timer) + |s.queue| + |s.running|
            && s.pending <= MAX_PENDING
    ensures k < |steps| ==> -1 - |states[k].retired| <= states[k + 1].pending - states[k].pending <= 1
  {
    RunInv(states, steps, k);
    if k < |steps| {
      BudgetStep(states[k], steps[k]);
    }
  }

  /** Of all entries armed under one claim flag, at most one is ever queued, and never early. */
  lemma QueuedAtMostOnce(states: seq<State>, steps: seq<Step>, k: nat)
    requires IsRun(states, steps) && k < |states|
    ensures var s := states[k];
            && (forall m, n :: 0 <= m < n < |s.delivered| ==> s.delivered[m].flag != s.delivered[n].flag)
            && (forall n :: 0 <= n < |s.delivered| ==> s.delivered[n].flag in s.flags && s.delivered[n].due <= s.now)
  {
    RunInv(states, steps, k);
  }

  /** An id names one entry: it has one key, or is in the timer's hand, or was queued once. */
  lemma EntriesAreDistinct(states: seq<State>, steps: seq<Step>, k: nat)
    requires IsRun(states, steps) && k < |states|
    ensures IdInv(states[k])
  {
    RunInv(states, steps, k);
  }

  // --------------------------------------------------------- ways to leave

  predicate Armed(s: State, id: nat) {
    exists k :: k in s.deadlines && s.deadlines[k].id == id
  }

  /** The entry with this id waits in the map or is in the timer's hand. */
  predicate Held(s: State, id: nat) {
    Armed(s, id) || (InHand(s.timer) == 1 && s.timer.entry.id == id)
  }

  predicate HeldOwned(s: State, id: nat) {
    || (exists k :: k in s.deadlines && s.deadlines[k].id == id && s.deadlines[k].owned)
    || (HoldsClaim(s.timer) && s.timer.entry.id == id)
  }

  predicate Delivers(s: State, t: State, id: nat) {
    && s.timer.Won? && s.timer.entry.id == id
    && t.queue == s.queue + [s.timer.entry] && t.delivered == s.delivered + [s.timer.entry]
  }

  predicate Cancels(s: State, step: Step, id: nat) {
    step.CancelTake? && step.key in s.deadlines && s.deadlines[step.key].id == id
  }

  /** What a step can do to an entry that waits in the map. */
  lemma InMap(s: State, step: Step, k: Key)
    requires KeyInv(s) && Enabled(s, step) && k in s.deadlines
    ensures var t := Apply(s, step);
            || (k in t.deadlines && t.deadlines[k] == s.deadlines[k])
            || step == CancelTake(k)
            || step.DestroySwap?
            || t.timer == Holding(s.deadlines[k])
  {
  }

  /** Only the timer's own steps touch what it holds. */
  lemma TimerAlone(s: State, step: Step)
    requires Enabled(s, step) && InHand(s.timer) == 1
    requires !step.TimerClaim? && !step.TimerDrop? && !step.TimerDeliver? && !step.TimerRetry?
    ensures Apply(s, step).timer == s.timer
  {
  }

  /** What a step can do to the entry in the timer's hand. */
  lemma InTimer(s: State, step: Step)
    requires Enabled(s, step) && InHand(s.timer) == 1
    ensures var e, t := s.timer.entry, Apply(s, step);
            || (InHand(t.timer) == 1 && t.timer.entry == e && (HoldsClaim(s.timer) ==> HoldsClaim(t.timer)))
            || Delivers(s, t, e.id)
            || (step.TimerDrop? && s.timer.Lost?)
            || (step.TimerRetry? && s.timerStop)
            || (step.TimerRetry? && KeyOf(Rearmed(s, e)) in t.deadlines
                && t.deadlines[KeyOf(Rearmed(s, e))] == Rearmed(s, e))
  {
    match step
    case TimerClaim =>
    case TimerDrop =>
    case TimerDeliver =>
      assert Apply(s, TimerDeliver).timer.Full? || Delivers(s, Apply(s, TimerDeliver), s.timer.entry.id);
    case TimerRetry =>
    case _ => TimerAlone(s, step);
  }

  /**
   An entry that won its claim is never dropped: it stays owned until it is queued, until
   Cancel takes it, or until the destructor has run. A full queue only delays it.
   */
  lemma OwnedLeavesOnlyBy(s: State, step: Step, id: nat)
    requires Inv(s) && Enabled(s, step) && HeldOwned(s, id)
    ensures var t := Apply(s, step);
            || HeldOwned(t, id)
            || Delivers(s, t, id)
            || Cancels(s, step, id)
            || step.DestroySwap?
            || (s.timerStop && step.TimerRetry?)
  {
    hide ClaimInv, DueInv, BudgetInv, IdInv;
    if HoldsClaim(s.timer) && s.timer.entry.id == id {
      InTimer(s, step);
    } else {
      var k :| k in s.deadlines && s.deadlines[k].id == id && s.deadlines[k].owned;
      InMap(s, step, k);
    }
  }

  /**
   Any armed entry leaves the watchdog in one of these ways and no other; the timer drops
   one only when its flag had been taken and not on its behalf.
   */
  lemma ArmedLeavesOnlyBy(s: State, step: Step, id: nat)
    requires Inv(s) && Enabled(s, step) && Held(s, id)
    ensures var t := Apply(s, step);
            || Held(t, id)
            || Delivers(s, t, id)
            || Cancels(s, step, id)
            || step.DestroySwap?
            || (s.timerStop && step.TimerRetry?)
            || (step.TimerDrop? && s.timer.Lost? && s.timer.entry.id == id
                && s.timer.entry.flag in s.flags && !s.timer.entry.owned)
  {
    hide ClaimInv, DueInv, BudgetInv, IdInv;
    if InHand(s.timer) == 1 && s.timer.entry.id == id {
      InTimer(s, step);
    } else {
      var k :| k in s.deadlines && s.deadlines[k].id == id;
      InMap(s, step, k);
    }
  }

  predicate Out(s: State, id: nat) {
    exists n :: 0 <= n < |s.delivered| && s.delivered[n].id == id
  }

  lemma OwnedStep(s: State, step: Step, id: nat)
    requires Inv(s) && Enabled(s, step)
    ensures Out(s, id) ==> Out(Apply(s, step), id)
    ensures s.timerStop ==> Apply(s, step).timerStop
    ensures HeldOwned(s, id) ==>
              || HeldOwned(Apply(s, step), id) || Out(Apply(s, step), id) || Apply(s, step).timerStop
              || Cancels(s, step, id)
  {
    DeliveriesGrow(s, step);
    hide Inv;
    if HeldOwned(s, id) {
      OwnedLeavesOnlyBy(s, step, id);
      if Delivers(s, Apply(s, step), id) {
        assert Apply(s, step).delivered[|s.delivered|].id == id;
      }
    }
    if Out(s, id) {
      var n :| 0 <= n < |s.delivered| && s.delivered[n].id == id;
      assert Apply(s, step).delivered[n].id == id;
    }
  }

  lemma DeliveriesGrow(s: State, step: Step)
    requires Enabled(s, step)
    ensures s.delivered <= Apply(s, step).delivered
    ensures s.timerStop || step.DestroySwap? ==> Apply(s, step).timerStop
  {
  }

  /**
   Over any run: an entry that won its claim is still held as owned, has been queued, was
   taken by a Cancel on the way, or the watchdog has been stopped. A full queue loses none.
   */
  lemma {:induction false} OwnedIsNeverLost(states: seq<State>, steps: seq<Step>, i: nat, k: nat, id: nat)
    requires IsRun(states, steps) && i <= k < |states| && HeldOwned(states[i], id)
    ensures || HeldOwned(states[k], id) || Out(states[k], id) || states[k].timerStop
            || CancelledWithin(states, steps, i, k, id)
  {
    hide HeldOwned, Out, Cancels, Apply, Enabled, Inv;
    if i < k {
      OwnedIsNeverLost(states, steps, i, k - 1, id);
      RunInv(states, steps, k - 1);
      CancelledMore(states, steps, i, k, id);
      hide CancelledWithin;
      OwnedStep(states[k - 1], steps[k - 1], id);
    }
  }

  /** Some Cancel between the two states took the entry out of the map. */
  ghost predicate CancelledWithin(states: seq<State>, steps: seq<Step>, i: nat, k: nat, id: nat) {
    exists m :: i <= m < k && m < |steps| && m < |states| && Cancels(states[m], steps[m], id)
  }

  lemma CancelledMore(states: seq<State>, steps: seq<Step>, i: nat, k: nat, id: nat)
    requires i < k <= |steps| && k < |states|
    ensures CancelledWithin(states, steps, i, k - 1, id) || Cancels(states[k - 1], steps[k - 1], id) ==>
              CancelledWithin(states, steps, i, k, id)
  {
    hide Cancels;
  }
}
