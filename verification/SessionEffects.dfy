/**
 What the repository calls achieve, seen through the calls that read: what a load returns
 after a write, when a write is applied, and what it leaves alone.
 */
module SessionEffects {
  import opened Wrappers
  import opened SessionModel
  import opened SessionProofs
  import opened SessionClaims

  // ------------------------------------------------------------- observers

  /** A session without any credential or name reads as nobody. */
  function Shown(info: SessionInfo): Option<SessionInfo> {
    if info == SessionInfo("", "", "", "", "", info.vipToken, info.vipType) then None else Some(info)
  }

  /** Loading returns this generation and session, at any time, and changes nothing. */
  ghost predicate Loads(s: Store, gen: nat, session: Option<SessionInfo>) {
    forall clock :: Apply(s, LoadSnapshot(clock)) == (s, Snapshot(gen, session))
  }

  /** The parts of the record that no load returns. */
  predicate SameAttempt(s: Store, t: Store) {
    KeyOf(t) == KeyOf(s) && AttemptOf(t) == AttemptOf(s)
  }

  predicate NoAttempt(s: Store) { KeyOf(s) == None && AttemptOf(s) == None && RefreshOf(s) == None }

  predicate SameDevice(s: Store, t: Store) { DeviceOf(t.device) == DeviceOf(s.device) }

  /** The device record was replaced under the next revision. */
  predicate Stamped(s: Store, t: Store, info: DeviceInfo) {
    DeviceOf(t.device).info == info && Revision(t.device) == Revision(s.device) + 1
  }

  /** Somebody is logged in, in a record of the current format. */
  ghost predicate LoggedIn(s: Store, gen: nat, info: SessionInfo) { Loads(s, gen, Some(info)) }

  lemma LoggedInIs(s: Store, gen: nat, info: SessionInfo)
    requires LoggedIn(s, gen, info)
    ensures s.session.Some? && s.session.value.Object? && s.session.value != EMPTY_OBJECT
    ensures ReadGeneration(s.session.value) == Some(gen) && ReadProtected(s.session.value) == Some(info)
    ensures IsEnvelope(s.session.value) && !IsEmptySession(info) && Shown(info) == Some(info)
  {
    assert Apply(s, LoadSnapshot(0)) == (s, Snapshot(gen, Some(info)));
    if s.session.Some? && s.session.value.Object? && !IsEnvelope(s.session.value) {
      NotEnvelopeLoads(s, 0);
    }
  }

  lemma NotEnvelopeLoads(s: Store, clock: int)
    requires s.session.Some? && s.session.value.Object? && !IsEnvelope(s.session.value)
    ensures DoLoad(s, clock).0 != s || DoLoad(s, clock).1 == Snapshot(0, None)
  {
  }

  lemma EnvelopeLoads(s: Store)
    requires s.session.Some? && s.session.value.Object? && IsEnvelope(s.session.value)
    requires ReadGeneration(s.session.value).Some?
    ensures Loads(s, ReadGeneration(s.session.value).value,
                  if ReadProtected(s.session.value).Some? then Shown(ReadProtected(s.session.value).value) else None)
  {
  }

  // ---------------------------------------------------------- login and logout

  /** One more, or the wall clock for a record that is no object or has used its generations up. */
  function Following(s: Store, clock: int): nat {
    if s.session == Some(NotObject) || GenOf(s) >= 0xFFFF_FFFF_FFFF_FFFF then (if clock < 1 then 1 else clock)
    else GenOf(s) + 1
  }

  /** A save is what every later load returns, under the next generation, with nothing left of the old record. */
  lemma SaveThenLoad(s: Store, info: SessionInfo, clock: int)
    requires Readable(s)
    ensures var t := Apply(s, Save(info, clock)).0;
            && Apply(s, Save(info, clock)).1 == Generation(Following(s, clock))
            && Loads(t, Following(s, clock), Shown(info)) && NoAttempt(t) && t.device == s.device
  {
    EnvelopeLoads(Apply(s, Save(info, clock)).0);
  }

  lemma ClearThenLoad(s: Store, clock: int)
    requires Readable(s)
    ensures var t := Apply(s, Clear(clock)).0;
            Loads(t, Following(s, clock), None) && NoAttempt(t) && t.device == s.device
  {
    EnvelopeLoads(Apply(s, Clear(clock)).0);
  }

  /** Logging out with the device also forgets the device, unless its revisions are used up. */
  lemma ClearWithDeviceThenLoad(s: Store, clock: int)
    requires Readable(s)
    ensures var t, o := Apply(s, ClearWithDevice(clock)).0, Apply(s, ClearWithDevice(clock)).1;
            if Revision(s.device) == 0xFFFF_FFFF_FFFF_FFFF then t == s && o == Threw
            else
              && o == Done && Loads(t, Following(s, clock), None) && NoAttempt(t)
              && Stamped(s, t, DeviceInfo("", false, ""))
  {
    EnvelopeLoads(Apply(s, Clear(clock)).0);
    if Stampable(s.device) { EnvelopeLoads(Apply(s, ClearWithDevice(clock)).0); }
  }

  /** A record from before the envelope is read once, as it was, and encrypted. */
  lemma LegacyLoads(s: Store, info: SessionInfo, clock: int)
    requires s.session.Some? && s.session.value.Object? && s.session.value.legacy == Some(info)
    requires s.session.value.version.None? && s.session.value.gen.GenAbsent? && s.session.value.data.NoData?
    ensures var t, o := Apply(s, LoadSnapshot(clock)).0, Apply(s, LoadSnapshot(clock)).1;
            if s.migrated || Shown(info).None? then t == s && o == Snapshot(0, None)
            else o == Snapshot(1, Some(info)) && LoggedIn(t, 1, info) && t.migrated
                 && SameAttempt(s, t) && t.device == s.device
  {
    if !s.migrated && Shown(info).Some? { EnvelopeLoads(Apply(s, LoadSnapshot(clock)).0); }
  }

  /** A new epoch keeps the login under the next generation and ends its login attempts. */
  lemma EpochKeepsLogin(s: Store, gen: nat, info: SessionInfo, clock: int)
    requires LoggedIn(s, gen, info) && gen < MAX64 && Stampable(s.device)
    ensures var t := Apply(s, BeginRuntimeEpoch(clock)).0;
            && Apply(s, BeginRuntimeEpoch(clock)).1 == Done
            && LoggedIn(t, gen + 1, info) && KeyOf(t) == None && AttemptOf(t) == None
            && Stamped(s, t, DeviceOf(s.device).info)
  {
    LoggedInIs(s, gen, info);
    assert Apply(s, LoadSnapshot(clock)) == (s, Snapshot(gen, Some(info)));
    EnvelopeLoads(Apply(s, BeginRuntimeEpoch(clock)).0);
  }

  // ---------------------------------------------------------- committing a login

  /** Everything a commit asks for, apart from the caller's own word. */
  predicate MayCommit(s: Store, op: Op)
    requires op.CommitLoginAttempt?
  {
    && op.key != "" && op.info.token != "" && op.info.userId != ""
    && op.generation == GenOf(s) && KeyOf(s) == Some(op.key)
    && (op.deviceRevision.Some? ==> op.deviceRevision.value == Revision(s.device))
  }

  /**
   From a readable record a login commits exactly when its key stands, its generation and
   device revision are current and the caller still wants it; otherwise nothing is written.
   */
  lemma CommitsExactly(s: Store, op: Op)
    requires Readable(s) && op.CommitLoginAttempt? && (op.newDevice.Some? ==> Stampable(s.device))
    ensures Apply(s, op).1 == if MayCommit(s, op) && op.canCommit then Done else Refused
    ensures !(MayCommit(s, op) && op.canCommit) ==> Apply(s, op).0 == s
  {
  }

  /** What a committed login leaves: the session it carried, its device, and no attempt. */
  lemma CommitThenLoad(s: Store, op: Op)
    requires Readable(s) && op.CommitLoginAttempt? && MayCommit(s, op) && op.canCommit && GenOf(s) < MAX64
    requires op.newDevice.Some? ==> Stampable(s.device)
    ensures var t := Apply(s, op).0;
            && LoggedIn(t, GenOf(s) + 1, op.info) && NoAttempt(t)
            && (if op.newDevice.Some? then Stamped(s, t, op.newDevice.value) else SameDevice(s, t))
  {
    EnvelopeLoads(Apply(s, op).0);
  }

  /** The attempt and its key stand in the record. */
  predicate Stands(s: Store, attempt: string, key: string) {
    KeyOf(s) == Some(key) && AttemptOf(s) == Some(attempt)
  }

  /** What takes a published key away again. */
  predicate Removes(op: Op, o: Outcome, attempt: string, key: string) {
    || Overtakes(op, o, attempt)
    || (op.ClearActiveLoginKey? && (op.key == key || op.key == ""))
    || (op.PublishLoginKey? && op.attempt == attempt && op.key != key)
  }

  lemma StandsLoad(s: Store, op: Op, attempt: string, key: string)
    requires Stands(s, attempt, key) && Readable(s) && (op.CaptureIdentity? || op.BeginRuntimeEpoch?)
    requires !(op.BeginRuntimeEpoch? && Apply(s, op).1.Done?)
    ensures Stands(Apply(s, op).0, attempt, key)
  {
    PairedLoad(s, op.clock, attempt, key);
    LoadStaysReadable(s, op.clock);
    hide DoLoad;
  }

  lemma LoadStaysReadable(s: Store, clock: int)
    requires Readable(s)
    ensures var t := DoLoad(s, clock).0; t.session.Some? ==> ReadGeneration(t.session.value).Some?
  {
  }

  lemma StandsStep(s: Store, op: Op, attempt: string, key: string)
    requires Stands(s, attempt, key) && Readable(s)
    requires Proper(op, attempt, key) && !Removes(op, Apply(s, op).1, attempt, key)
    requires op != BeginLoginAttempt(attempt)
    ensures Stands(Apply(s, op).0, attempt, key)
  {
    if op.CaptureIdentity? || op.BeginRuntimeEpoch? { StandsLoad(s, op, attempt, key); }
  }

  /** Between the publication and state `j` nothing removed the key. */
  ghost predicate Undisturbed(states: seq<Store>, ops: seq<Op>, p: nat, j: nat, attempt: string, key: string)
    requires p <= j < |states| && |states| == |ops| + 1
  {
    forall m :: p < m < j ==> !Removes(ops[m], Apply(states[m], ops[m]).1, attempt, key)
  }

  lemma {:induction false} StandsRun(states: seq<Store>, ops: seq<Op>, start: nat, attempt: string, key: string,
                                     p: nat, j: nat)
    requires IsRun(states, ops) && LoginRun(states, ops, start, attempt, key) && start < p < j < |states|
    requires ops[p].PublishLoginKey? && ops[p].key == key && Apply(states[p], ops[p]).1.Done?
    requires Undisturbed(states, ops, p, j, attempt, key)
    ensures Stands(states[j], attempt, key)
  {
    if j == p + 1 {
      PublishStands(states[p], ops[p]);
    } else {
      hide Apply, Stands, Removes;
      StandsRun(states, ops, start, attempt, key, p, j - 1);
      RunOnward(states, ops, j - 1, j - 1);
      StandsStep(states[j - 1], ops[j - 1], attempt, key);
    }
  }

  lemma PublishStands(s: Store, op: Op)
    requires op.PublishLoginKey? && Apply(s, op).1.Done?
    ensures Stands(Apply(s, op).0, op.attempt, op.key)
  {
  }

  /** A key that was published and not overtaken, cleared or replaced commits when its caller still wants it. */
  lemma PublishedKeyCommits(states: seq<Store>, ops: seq<Op>, start: nat, attempt: string, key: string,
                            p: nat, j: nat)
    requires IsRun(states, ops) && LoginRun(states, ops, start, attempt, key) && start < p < j < |ops|
    requires ops[p].PublishLoginKey? && ops[p].key == key && Apply(states[p], ops[p]).1.Done?
    requires Undisturbed(states, ops, p, j, attempt, key)
    requires ops[j].CommitLoginAttempt? && ops[j].key == key && ops[j].canCommit
    requires ops[j].info.token != "" && ops[j].info.userId != "" && ops[j].generation == GenOf(states[j])
    requires ops[j].deviceRevision.None? || ops[j].deviceRevision.value == Revision(states[j].device)
    requires ops[j].newDevice.Some? ==> Stampable(states[j].device)
    ensures Apply(states[j], ops[j]).1 == Done
    ensures LoggedIn(states[j + 1], GenOf(states[j]) + 1, ops[j].info)
  {
    StandsRun(states, ops, start, attempt, key, p, j);
    RunOnward(states, ops, j, j);
    hide Apply, LoggedIn;
    CommitsExactly(states[j], ops[j]);
    CommitThenLoad(states[j], ops[j]);
  }

  // -------------------------------------------------------------- login attempts

  /** A key is published exactly by the attempt in the record, for the versions it was obtained under. */
  lemma PublishesExactly(s: Store, op: Op)
    requires Readable(s) && op.PublishLoginKey?
    ensures Apply(s, op).1.Done? <==>
              && op.attempt != "" && op.key != "" && AttemptOf(s) == Some(op.attempt) && op.canPublish
              && (op.expecting.Some? ==> op.expecting.value == Version(GenOf(s), Revision(s.device)))
    ensures !Apply(s, op).1.Done? ==> Apply(s, op) == (s, Refused)
    ensures Apply(s, op).1.Done? ==>
              var t := Apply(s, op).0;
              && KeyOf(t) == Some(op.key) && AttemptOf(t) == AttemptOf(s) && RefreshOf(t) == RefreshOf(s)
              && GenOf(t) == GenOf(s) && User(t) == User(s) && SameDevice(s, t)
  {
  }

  /** A new attempt stands alone: no key yet, the login and its refresh untouched. */
  lemma BeginsAttempt(s: Store, attempt: string)
    requires Readable(s)
    ensures var t := Apply(s, BeginLoginAttempt(attempt)).0;
            && AttemptOf(t) == Some(attempt) && KeyOf(t) == None && RefreshOf(t) == RefreshOf(s)
            && GenOf(t) == GenOf(s) && User(t) == User(s) && t.device == s.device
  {
  }

  lemma CancelsOwnAttempt(s: Store, attempt: string)
    ensures var t := Apply(s, CancelLoginAttempt(attempt)).0;
            if attempt != "" && AttemptOf(s) == Some(attempt)
            then AttemptOf(t) == None && KeyOf(t) == None && RefreshOf(t) == RefreshOf(s)
                 && GenOf(t) == GenOf(s) && User(t) == User(s) && t.device == s.device
            else t == s
  {
  }

  /** A key is cleared by its own name or by none, and nothing else goes with it. */
  lemma ClearsOwnKey(s: Store, key: string)
    ensures var t := Apply(s, ClearActiveLoginKey(key)).0;
            && KeyOf(t) == (if key == "" || KeyOf(s) == Some(key) then None else KeyOf(s))
            && AttemptOf(t) == AttemptOf(s) && RefreshOf(t) == RefreshOf(s)
            && GenOf(t) == GenOf(s) && User(t) == User(s) && t.device == s.device
  {
  }

  lemma SetsKey(s: Store, key: string)
    requires Readable(s)
    ensures var t := Apply(s, SetActiveLoginKey(key)).0;
            && KeyOf(t) == (if key == "" then KeyOf(s) else Some(key))
            && AttemptOf(t) == AttemptOf(s) && RefreshOf(t) == RefreshOf(s)
            && GenOf(t) == GenOf(s) && User(t) == User(s) && t.device == s.device
  {
  }
}
