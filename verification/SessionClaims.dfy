/**
 Login attempts and refresh claims: who may still commit, and when a refresh may start.
 */
module SessionClaims {
  import opened Wrappers
  import opened SessionModel
  import opened SessionProofs

  // -------------------------------------------------------- login attempts

  /** Neither the attempt nor its key is in the record any more. */
  predicate Dead(s: Store, attempt: string, key: string) {
    KeyOf(s) != Some(key) && AttemptOf(s) != Some(attempt)
  }

  /** The key in the record, if it is this one, belongs to the attempt in the record. */
  predicate Paired(s: Store, attempt: string, key: string) {
    KeyOf(s) == Some(key) ==> AttemptOf(s) == Some(attempt)
  }

  /** Calls that respect the protocol for `key`: only its own attempt publishes it. */
  predicate Proper(op: Op, attempt: string, key: string) {
    && !op.SetActiveLoginKey?
    && (op.PublishLoginKey? && op.key == key ==> op.attempt == attempt)
  }

  lemma PairedLoad(s: Store, clock: int, attempt: string, key: string)
    ensures KeyOf(DoLoad(s, clock).0) == KeyOf(s) && AttemptOf(DoLoad(s, clock).0) == AttemptOf(s)
  {
  }

  lemma PairedCapture(s: Store, op: Op, attempt: string, key: string)
    requires op.CaptureIdentity? || op.BeginRuntimeEpoch?
    ensures Paired(s, attempt, key) ==> Paired(Apply(s, op).0, attempt, key)
    ensures Dead(s, attempt, key) ==> Dead(Apply(s, op).0, attempt, key)
    ensures op.BeginRuntimeEpoch? && Apply(s, op).1.Done? ==> Dead(Apply(s, op).0, attempt, key)
  {
    PairedLoad(s, op.clock, attempt, key);
  }

  lemma PairedStep(s: Store, op: Op, attempt: string, key: string)
    requires attempt != "" && Paired(s, attempt, key) && Proper(op, attempt, key)
    ensures Paired(Apply(s, op).0, attempt, key)
  {
    if op.CaptureIdentity? || op.BeginRuntimeEpoch? {
      PairedCapture(s, op, attempt, key);
    }
  }

  lemma DeadStep(s: Store, op: Op, attempt: string, key: string)
    requires Dead(s, attempt, key) && Proper(op, attempt, key)
    requires op.BeginLoginAttempt? ==> op.attempt != attempt
    ensures Dead(Apply(s, op).0, attempt, key)
  {
    if op.CaptureIdentity? || op.BeginRuntimeEpoch? {
      PairedCapture(s, op, attempt, key);
    }
  }

  /** What ends an attempt: a newer attempt, its cancellation, or an identity-changing write. */
  predicate Overtakes(op: Op, o: Outcome, attempt: string) {
    || (op.BeginLoginAttempt? && op.attempt != attempt)
    || (op.CancelLoginAttempt? && op.attempt == attempt)
    || EndsGeneration(op, o)
  }

  lemma OvertakenIsDead(s: Store, op: Op, attempt: string, key: string)
    requires attempt != "" && Paired(s, attempt, key) && Overtakes(op, Apply(s, op).1, attempt)
    ensures Dead(Apply(s, op).0, attempt, key)
  {
    if op.BeginRuntimeEpoch? {
      PairedCapture(s, op, attempt, key);
    }
  }

  /**
   Runs in which `key` is published by `attempt` only, `attempt` begins at `start`, and
   attempt ids are fresh.
   */
  ghost predicate LoginRun(states: seq<Store>, ops: seq<Op>, start: nat, attempt: string, key: string) {
    && |states| == |ops| + 1 && start < |ops|
    && attempt != "" && key != ""
    && (forall k :: 0 <= k < |ops| ==> states[k + 1] == Apply(states[k], ops[k]).0)
    && (forall k :: 0 <= k < |ops| ==> Proper(ops[k], attempt, key))
    && (forall k :: 0 <= k < |ops| && k != start ==> ops[k] != BeginLoginAttempt(attempt))
    && ops[start] == BeginLoginAttempt(attempt)
  }

  lemma {:induction false} PairedRun(states: seq<Store>, ops: seq<Op>, start: nat, attempt: string, key: string, k: nat)
    requires LoginRun(states, ops, start, attempt, key) && start < k < |states|
    ensures Paired(states[k], attempt, key)
  {
    if k > start + 1 {
      PairedRun(states, ops, start, attempt, key, k - 1);
      PairedStep(states[k - 1], ops[k - 1], attempt, key);
    }
  }

  lemma {:induction false} DeadRun(states: seq<Store>, ops: seq<Op>, start: nat, attempt: string,
                                   key: string, m: nat, k: nat)
    requires LoginRun(states, ops, start, attempt, key) && start < m <= k < |states|
    requires Dead(states[m], attempt, key)
    ensures Dead(states[k], attempt, key)
  {
    if m < k {
      DeadRun(states, ops, start, attempt, key, m, k - 1);
      DeadStep(states[k - 1], ops[k - 1], attempt, key);
    }
  }

  /** Once its attempt has been superseded, cancelled or overtaken, a key never commits. */
  lemma NoCommitAfterOvertaken(states: seq<Store>, ops: seq<Op>, start: nat, attempt: string, key: string,
                             m: nat, j: nat)
    requires LoginRun(states, ops, start, attempt, key) && start < m < j < |ops|
    requires Overtakes(ops[m], Apply(states[m], ops[m]).1, attempt)
    requires ops[j].CommitLoginAttempt? && ops[j].key == key
    ensures Apply(states[j], ops[j]) == (states[j], Refused)
  {
    PairedRun(states, ops, start, attempt, key, m);
    OvertakenIsDead(states[m], ops[m], attempt, key);
    DeadRun(states, ops, start, attempt, key, m + 1, j);
  }

  /** A key commits at most once. */
  lemma KeyCommitsOnce(states: seq<Store>, ops: seq<Op>, start: nat, attempt: string, key: string, i: nat, j: nat)
    requires LoginRun(states, ops, start, attempt, key) && start < i < j < |ops|
    requires ops[i].CommitLoginAttempt? && ops[i].key == key && Apply(states[i], ops[i]).1.Done?
    requires ops[j].CommitLoginAttempt? && ops[j].key == key
    ensures Apply(states[j], ops[j]) == (states[j], Refused)
  {
    NoCommitAfterOvertaken(states, ops, start, attempt, key, i, j);
  }

  // ------------------------------------------------------- refresh cooldown

  /**
   After Finish at `c`, a claim at `now` is suppressed exactly inside the window that ends
   at the deadline: a clock that was set back suppresses nothing.
   */
  lemma CooldownWindow(s: Store, ticket: Ticket, c: int, epoch: string, now: int)
    requires c <= MAX_TIME && IsStoredClaim(s, ticket)
    ensures var t := Apply(s, Finish(ticket, c)).0;
            && RefreshOf(t).Some?
            && (Suppressed(RefreshOf(t).value, epoch, now) <==>
                  now >= 0 && c >= 0 && CooldownDeadline(c) - COOLDOWN_MS <= now < CooldownDeadline(c))
            && (c >= 0 && c <= MAX_TIME - COOLDOWN_MS && now >= 0 ==>
                  (Suppressed(RefreshOf(t).value, epoch, now) <==> c <= now < c + 30_000))
            && (c > 0x7FFF_FFFF_FFFF_FFFF - 30_000 ==>
                  (Suppressed(RefreshOf(t).value, epoch, now) <==>
                     0x7FFF_FFFF_FFFF_FFFF - 30_000 <= now < 0x7FFF_FFFF_FFFF_FFFF))
            && (c < 0 ==> !Suppressed(RefreshOf(t).value, epoch, now))
  {
  }

  /** Finish acts exactly for the ticket whose claim is stored, and on nothing but the claim. */
  lemma FinishOnlyOwnClaim(s: Store, ticket: Ticket, c: int)
    ensures !IsStoredClaim(s, ticket) <==> Apply(s, Finish(ticket, c)) == (s, Refused)
    ensures var t := Apply(s, Finish(ticket, c)).0;
            && t.device == s.device && GenOf(t) == GenOf(s) && User(t) == User(s)
            && KeyOf(t) == KeyOf(s) && AttemptOf(t) == AttemptOf(s)
  {
  }

  // ------------------------------------------------------- one ticket at a time

  /** The ticket's claim is in the record, unless its generation has ended. */
  predicate Reserved(s: Store, ticket: Ticket) {
    || GenOf(s) > ticket.generation
    || (GenOf(s) == ticket.generation && RefreshOf(s) == Some(InFlight(ticket.epoch, ticket.claim)))
  }

  lemma ReservedLoad(s: Store, ticket: Ticket, clock: int)
    requires Readable(s) && GenOf(s) < MAX64 && clock <= MAX_TIME && Reserved(s, ticket)
    ensures Reserved(DoLoad(s, clock).0, ticket)
  {
  }

  lemma ReservedCapture(s: Store, op: Op, ticket: Ticket)
    requires Readable(s) && GenOf(s) < MAX64 && SaneClock(op) && Reserved(s, ticket)
    requires op.CaptureIdentity? || op.BeginRuntimeEpoch?
    ensures Reserved(Apply(s, op).0, ticket)
  {
    ReservedLoad(s, ticket, op.clock);
    StepOnward(s, op);
    LoadOnward(s, op.clock);
    if op.BeginRuntimeEpoch? { RaisesExactly(DoLoad(s, op.clock).0, op.clock); }
  }

  lemma ReservedStep(s: Store, op: Op, ticket: Ticket)
    requires Readable(s) && GenOf(s) < MAX64 && SaneClock(op) && KeepsUser(op) && Reserved(s, ticket)
    requires op.TryClaim? ==> op.epoch == ticket.epoch
    requires op.Finish? ==> op.ticket != ticket
    requires ticket.claim != ""
    ensures Reserved(Apply(s, op).0, ticket)
    ensures op.TryClaim? && op.generation == ticket.generation ==> Apply(s, op) == (s, Refused)
  {
    StepOnward(s, op);
    if op.CaptureIdentity? || op.BeginRuntimeEpoch? {
      ReservedCapture(s, op, ticket);
    }
  }

  lemma {:induction false} ReservedRun(states: seq<Store>, ops: seq<Op>, ticket: Ticket, i: nat, j: nat)
    requires IsRun(states, ops) && i <= j < |states| && Reserved(states[i], ticket) && ticket.claim != ""
    requires forall k :: i <= k < j ==> (ops[k].TryClaim? ==> ops[k].epoch == ticket.epoch)
    requires forall k :: i <= k < j ==> (ops[k].Finish? ==> ops[k].ticket != ticket)
    ensures Reserved(states[j], ticket)
  {
    if i < j {
      ReservedRun(states, ops, ticket, i, j - 1);
      RunOnward(states, ops, j - 1, j - 1);
      ReservedStep(states[j - 1], ops[j - 1], ticket);
    }
  }

  /**
   Within one process epoch at most one ticket per generation is outstanding: after a claim
   succeeds, every further claim for that generation is refused until its ticket is finished.
   */
  lemma OneTicketAtATime(states: seq<Store>, ops: seq<Op>, i: nat, j: nat, ticket: Ticket, info: SessionInfo)
    requires IsRun(states, ops) && i < j < |ops|
    requires ops[i].TryClaim? && Apply(states[i], ops[i]).1 == Claimed(ticket, info) && ticket.claim != ""
    requires forall k :: i <= k <= j ==> (ops[k].TryClaim? ==> ops[k].epoch == ticket.epoch)
    requires forall k :: i <= k < j ==> (ops[k].Finish? ==> ops[k].ticket != ticket)
    requires ops[j].TryClaim? && ops[j].generation == ticket.generation
    ensures Apply(states[j], ops[j]) == (states[j], Refused)
  {
    assert Reserved(states[i + 1], ticket);
    ReservedRun(states, ops, ticket, i + 1, j);
    RunOnward(states, ops, j, j);
    ReservedStep(states[j], ops[j], ticket);
  }

  // ------------------------------------------------ a claim that outlives its generation

  /**
   What a new epoch makes of the refresh claim: the record of a readable user keeps its
   claim or cooldown exactly as it was, any other loses it.
   */
  lemma EpochCarriesExactly(s: Store, clock: int)
    requires Readable(s) && GenOf(s) < MAX64 && clock <= MAX_TIME && Revision(s.device) < MAX64
    ensures var t := Apply(s, BeginRuntimeEpoch(clock)).0;
            RefreshOf(t) == if User(s).Some? then RefreshOf(s) else None
  {
    LoadOnward(s, clock);
  }

  /**
   BeginRuntimeEpoch raises the generation, and the record then reserves a ticket of the new
   generation, one that nobody was ever given, exactly when a readable user's record held
   that claim in flight.
   */
  lemma EpochCarriesClaim(s: Store, epoch: string, claim: string, clock: int)
    requires Readable(s) && GenOf(s) < MAX64 && clock <= MAX_TIME && Revision(s.device) < MAX64
    ensures var t := Apply(s, BeginRuntimeEpoch(clock)).0;
            && GenOf(t) > GenOf(s) && (User(s).Some? ==> GenOf(t) == GenOf(s) + 1)
            && (Reserved(t, Ticket(GenOf(t), epoch, claim)) <==>
                  User(s).Some? && RefreshOf(s) == Some(InFlight(epoch, claim)))
  {
    EpochCarriesExactly(s, clock);
    EpochOnward(s, clock);
  }

  /** Whether the claim in the record suppresses a refresh. */
  predicate Suppresses(s: Store, epoch: string, now: int) {
    RefreshOf(s).Some? && Suppressed(RefreshOf(s).value, epoch, now)
  }

  /**
   A refresh is suppressed after a new epoch exactly when the record held a readable user
   and a claim or a cooldown that suppressed it before.
   */
  lemma EpochSuppressesExactly(s: Store, clock: int, epoch: string, now: int)
    requires Readable(s) && GenOf(s) < MAX64 && clock <= MAX_TIME && Revision(s.device) < MAX64
    ensures Suppresses(Apply(s, BeginRuntimeEpoch(clock)).0, epoch, now) <==>
            User(s).Some? && Suppresses(s, epoch, now)
  {
    hide Apply, Suppressed;
    EpochCarriesExactly(s, clock);
  }

  /** So the next claim gets the answer it would have got before the epoch began. */
  lemma EpochKeepsVerdict(s: Store, clock: int, epoch: string, now: int, claim: string)
    requires Readable(s) && GenOf(s) < MAX64 && clock <= MAX_TIME && Revision(s.device) < MAX64 && User(s).Some?
    ensures var t := Apply(s, BeginRuntimeEpoch(clock)).0;
            Apply(t, TryClaim(GenOf(t), now, epoch, claim)).1.Refused? <==>
            Apply(s, TryClaim(GenOf(s), now, epoch, claim)).1.Refused?
  {
    EpochCarriesExactly(s, clock);
    hide Suppressed;
  }

  /**
   Nothing in that process can release it: the tickets it holds are of earlier generations,
   so every claim for the new generation is refused until another call ends it.
   */
  lemma OrphanBlocksRefresh(states: seq<Store>, ops: seq<Op>, i: nat, j: nat, ticket: Ticket)
    requires IsRun(states, ops) && i <= j < |ops| && Reserved(states[i], ticket) && ticket.claim != ""
    requires forall k :: i <= k <= j ==> (ops[k].TryClaim? ==> ops[k].epoch == ticket.epoch)
    requires forall k :: i <= k < j ==> (ops[k].Finish? ==> ops[k].ticket.generation < ticket.generation)
    requires ops[j].TryClaim? && ops[j].generation == ticket.generation
    ensures Apply(states[j], ops[j]) == (states[j], Refused)
  {
    ReservedRun(states, ops, ticket, i, j);
    RunOnward(states, ops, j, j);
    ReservedStep(states[j], ops[j], ticket);
  }
}
