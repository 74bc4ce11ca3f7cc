/**
 Stale-writer safety of the account store: generations, users, device revisions, login
 attempts and refresh claims over arbitrary runs of repository calls.
 */
module SessionProofs {
  import opened Wrappers
  import opened SessionModel

  // ------------------------------------------------------------- measures

  function GenOf(s: Store): nat {
    if s.session.None? then 0
    else
      var g := ReadGeneration(s.session.value);
      if g.Some? then g.value else 0
  }

  predicate Readable(s: Store) {
    && (s.session.Some? ==> ReadGeneration(s.session.value).Some?)
    && GenOf(s) <= MAX64
    && Revision(s.device) <= MAX64
  }

  /** Whose credentials the record holds, if it holds any that can be read. */
  function User(s: Store): Option<string> {
    if s.session.Some? && ReadProtected(s.session.value).Some?
    then Some(ReadProtected(s.session.value).value.userId) else None
  }

  function KeyOf(s: Store): Option<string> {
    if s.session.Some? && s.session.value.Object? then s.session.value.key else None
  }

  function AttemptOf(s: Store): Option<string> {
    if s.session.Some? && s.session.value.Object? then s.session.value.attempt else None
  }

  function RefreshOf(s: Store): Option<Lazy> {
    if s.session.Some? && s.session.value.Object? then s.session.value.refresh else None
  }

  /** The clock readings a call takes are 64-bit milliseconds. */
  predicate SaneClock(op: Op) {
    match op
    case LoadSnapshot(c) => c <= MAX_TIME
    case CaptureIdentity(_, _, c) => c <= MAX_TIME
    case BeginRuntimeEpoch(c) => c <= MAX_TIME
    case Save(_, c) => c <= MAX_TIME
    case Clear(c) => c <= MAX_TIME
    case ClearWithDevice(c) => c <= MAX_TIME
    case CommitLoginAttempt(_, _, _, _, _, _, c) => c <= MAX_TIME
    case _ => true
  }

  ghost predicate KeepsUser(op: Op) {
    op.PatchIfGeneration? ==> forall i :: op.mutator(i).userId == i.userId
  }

  /** The calls that end an account generation when they succeed. */
  predicate EndsGeneration(op: Op, o: Outcome) {
    || op.Save? || op.Clear?
    || (op.ClearWithDevice? && o.Done?)
    || (op.BeginRuntimeEpoch? && o.Done?)
    || (op.CommitLoginAttempt? && o.Done?)
  }

  // ---------------------------------------------------------- generations

  /** An identity-changing write raises the generation exactly when it is not used up. */
  lemma RaisesExactly(s: Store, clock: int)
    requires Readable(s) && clock <= MAX_TIME
    ensures NextGeneration(s.session, clock) > GenOf(s) <==> GenOf(s) < MAX64
    ensures 0 < NextGeneration(s.session, clock) <= MAX64
  {
  }

  /** The relation every call keeps between the record before and after. */
  ghost predicate Onward(s: Store, t: Store) {
    && Readable(t)
    && GenOf(s) <= GenOf(t)
    && (GenOf(s) == GenOf(t) ==> User(s) == User(t))
  }

  lemma OnwardTrans(s: Store, t: Store, u: Store)
    requires Onward(s, t) && Onward(t, u)
    ensures Onward(s, u)
  {
  }

  lemma LoadOnward(s: Store, clock: int)
    requires Readable(s) && GenOf(s) < MAX64 && clock <= MAX_TIME
    ensures Onward(s, DoLoad(s, clock).0)
    ensures GenOf(DoLoad(s, clock).0) == GenOf(s) || (GenOf(s) == 0 && GenOf(DoLoad(s, clock).0) == 1)
    ensures DoLoad(s, clock).0.device == s.device
  {
  }

  lemma CaptureOnward(s: Store, initial: Option<DeviceInfo>, expected: Option<nat>, clock: int)
    requires Readable(s) && GenOf(s) < MAX64 && clock <= MAX_TIME
    ensures Onward(s, DoCapture(s, initial, expected, clock).0)
  {
    LoadOnward(s, clock);
  }

  lemma EpochOnward(s: Store, clock: int)
    requires Readable(s) && GenOf(s) < MAX64 && clock <= MAX_TIME
    ensures Onward(s, DoBeginEpoch(s, clock).0)
    ensures DoBeginEpoch(s, clock).1.Done? ==> GenOf(DoBeginEpoch(s, clock).0) > GenOf(s)
  {
    LoadOnward(s, clock);
    RaisesExactly(DoLoad(s, clock).0, clock);
  }

  lemma LoginOnward(s: Store, op: Op)
    requires Readable(s) && GenOf(s) < MAX64 && SaneClock(op)
    requires op.SetActiveLoginKey? || op.BeginLoginAttempt? || op.PublishLoginKey? || op.CancelLoginAttempt?
          || op.ClearActiveLoginKey? || op.CommitLoginAttempt?
    ensures Onward(s, Apply(s, op).0)
    ensures EndsGeneration(op, Apply(s, op).1) ==> GenOf(Apply(s, op).0) > GenOf(s)
  {
  }

  lemma PatchOnward(s: Store, op: Op)
    requires Readable(s) && KeepsUser(op) && (op.PatchIfGeneration? || op.PatchIdentity?)
    ensures Onward(s, Apply(s, op).0)
  {
  }

  lemma OtherOnward(s: Store, op: Op)
    requires Readable(s) && GenOf(s) < MAX64 && SaneClock(op)
    requires op.Save? || op.Clear? || op.ClearWithDevice? || op.CommitRegistration? || op.ReplaceDevice?
          || op.TryClaim? || op.Finish? || op.SaveDevice? || op.ClearDevice?
    ensures Onward(s, Apply(s, op).0)
    ensures EndsGeneration(op, Apply(s, op).1) ==> GenOf(Apply(s, op).0) > GenOf(s)
  {
  }

  lemma StepOnward(s: Store, op: Op)
    requires Readable(s) && GenOf(s) < MAX64 && SaneClock(op) && KeepsUser(op)
    ensures Onward(s, Apply(s, op).0)
    ensures EndsGeneration(op, Apply(s, op).1) ==> GenOf(Apply(s, op).0) > GenOf(s)
  {
    match op
    case LoadSnapshot(clock) => LoadOnward(s, clock);
    case CaptureIdentity(initial, expected, clock) => CaptureOnward(s, initial, expected, clock);
    case BeginRuntimeEpoch(clock) => EpochOnward(s, clock);
    case PatchIfGeneration(_, _) => PatchOnward(s, op);
    case PatchIdentity(_, _, _, _) => PatchOnward(s, op);
    case SetActiveLoginKey(_) => LoginOnward(s, op);
    case BeginLoginAttempt(_) => LoginOnward(s, op);
    case PublishLoginKey(_, _, _, _) => LoginOnward(s, op);
    case CancelLoginAttempt(_) => LoginOnward(s, op);
    case ClearActiveLoginKey(_) => LoginOnward(s, op);
    case CommitLoginAttempt(_, _, _, _, _, _, _) => LoginOnward(s, op);
    case _ => OtherOnward(s, op);
  }

  // ------------------------------------------------------------------ runs

  ghost predicate IsRun(states: seq<Store>, ops: seq<Op>) {
    && |states| == |ops| + 1
    && Readable(states[0])
    && (forall k :: 0 <= k < |ops| ==> states[k + 1] == Apply(states[k], ops[k]).0)
    && (forall k :: 0 <= k < |ops| ==> SaneClock(ops[k]) && KeepsUser(ops[k]))
    && (forall k :: 0 <= k < |ops| ==> GenOf(states[k]) < MAX64)
  }

  /** Generations never go back, and within one generation the user never changes. */
  lemma {:induction false} RunOnward(states: seq<Store>, ops: seq<Op>, i: nat, j: nat)
    requires IsRun(states, ops) && i <= j < |states|
    ensures Readable(states[i]) && Onward(states[i], states[j])
    decreases j
  {
    if i < j {
      RunOnward(states, ops, i, j - 1);
      StepOnward(states[j - 1], ops[j - 1]);
      OnwardTrans(states[i], states[j - 1], states[j]);
    } else if j > 0 {
      RunOnward(states, ops, j - 1, j - 1);
      StepOnward(states[j - 1], ops[j - 1]);
    }
  }

  /** The generation and session that a call hands to a request, if it hands any. */
  predicate Captures(o: Outcome, gen: nat, info: SessionInfo) {
    || o == Snapshot(gen, Some(info))
    || (o.Identity? && o.version.account == gen && o.session == Some(info))
  }

  lemma CaptureIsCurrent(s: Store, op: Op, gen: nat, info: SessionInfo)
    requires Captures(Apply(s, op).1, gen, info)
    ensures GenOf(Apply(s, op).0) == gen && User(Apply(s, op).0) == Some(info.userId)
  {
  }

  /** A late patch that is accepted lands on the account its request captured. */
  lemma AcceptedPatchHitsCapturedAccount(states: seq<Store>, ops: seq<Op>, i: nat, j: nat, gen: nat, info: SessionInfo)
    requires IsRun(states, ops) && i < j < |ops|
    requires Captures(Apply(states[i], ops[i]).1, gen, info)
    requires || (ops[j].PatchIdentity? && ops[j].expected.account == gen)
             || (ops[j].PatchIfGeneration? && ops[j].generation == gen)
    requires Apply(states[j], ops[j]).1.Patched?
    ensures Apply(states[j], ops[j]).1.info.userId == info.userId
    ensures User(states[j + 1]) == User(states[j]) == Some(info.userId) && GenOf(states[j + 1]) == gen
  {
    CaptureIsCurrent(states[i], ops[i], gen, info);
    RunOnward(states, ops, i + 1, j);
    RunOnward(states, ops, j, j + 1);
  }

  /** A request that captured an account before it was replaced cannot patch afterwards. */
  lemma StalePatchIsRefused(states: seq<Store>, ops: seq<Op>, i: nat, m: nat, j: nat, gen: nat, info: SessionInfo)
    requires IsRun(states, ops) && i < m < j < |ops|
    requires Captures(Apply(states[i], ops[i]).1, gen, info)
    requires EndsGeneration(ops[m], Apply(states[m], ops[m]).1)
    requires || (ops[j].PatchIdentity? && ops[j].expected.account == gen)
             || (ops[j].PatchIfGeneration? && ops[j].generation == gen)
    ensures Apply(states[j], ops[j]) == (states[j], Refused)
  {
    CaptureIsCurrent(states[i], ops[i], gen, info);
    RunOnward(states, ops, i + 1, m);
    StepOnward(states[m], ops[m]);
    RunOnward(states, ops, m + 1, j);
  }

  /** Beyond the last generation a save falls back to the clock: the bound is needed. */
  lemma ExhaustedGenerationFalls(info: SessionInfo, clock: int)
    requires clock <= MAX_TIME
    ensures var s := Store(Some(Envelope(MAX64, Sealed(info))), None, true);
            Readable(s) && GenOf(Apply(s, Save(info, clock)).0) < GenOf(s)
  {
  }

  // ------------------------------------------------------ device revisions

  /** Every change of the device record is stamped with the next revision. */
  lemma DeviceStep(s: Store, op: Op)
    requires Revision(s.device) <= MAX64
    ensures var t := Apply(s, op).0;
            || DeviceOf(t.device) == DeviceOf(s.device)
            || (Revision(t.device) == Revision(s.device) + 1 <= MAX64)
    ensures Apply(s, op).1 == Committed(Applied) ==>
              && (op.CommitRegistration? || op.ReplaceDevice?)
              && Revision(s.device) == op.expected.device
              && Revision(Apply(s, op).0.device) == op.expected.device + 1
  {
  }

  lemma {:induction false} RevisionsOnward(states: seq<Store>, ops: seq<Op>, i: nat, j: nat)
    requires |states| == |ops| + 1 && i <= j < |states|
    requires Revision(states[i].device) <= MAX64
    requires forall k :: 0 <= k < |ops| ==> states[k + 1] == Apply(states[k], ops[k]).0
    ensures Revision(states[i].device) <= Revision(states[j].device) <= MAX64
    ensures Revision(states[i].device) == Revision(states[j].device) ==>
              DeviceOf(states[i].device) == DeviceOf(states[j].device)
  {
    if i < j {
      RevisionsOnward(states, ops, i, j - 1);
      DeviceStep(states[j - 1], ops[j - 1]);
    }
  }

  /** Of all commits that expect one device revision, at most one is applied. */
  lemma OneCommitPerRevision(states: seq<Store>, ops: seq<Op>, i: nat, j: nat)
    requires |states| == |ops| + 1 && i < j < |ops|
    requires Revision(states[i].device) <= MAX64
    requires forall k :: 0 <= k < |ops| ==> states[k + 1] == Apply(states[k], ops[k]).0
    requires ops[i].CommitRegistration? || ops[i].ReplaceDevice?
    requires ops[j].CommitRegistration? || ops[j].ReplaceDevice?
    requires ops[i].expected.device == ops[j].expected.device
    requires Apply(states[i], ops[i]).1 == Committed(Applied)
    ensures Apply(states[j], ops[j]).1 != Committed(Applied)
  {
    DeviceStep(states[i], ops[i]);
    RevisionsOnward(states, ops, i + 1, j);
    DeviceStep(states[j], ops[j]);
  }
}
