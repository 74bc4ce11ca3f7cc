/**
 The account repository: two stored records rewritten in place, each call one transaction.
 Every method is tied to the operation of SessionModel whose runs are studied elsewhere.
 */
module Session {
  import opened Wrappers
  import opened SessionModel
  import opened SessionProofs

  /**
   What every call keeps, from a readable record with generations left: the generation does
   not go back, within one generation the user stays, and a call that ends a generation
   raises it.
   */
  ghost predicate Kept(s: Store, op: Op, t: Store, outcome: Outcome) {
    Readable(s) && GenOf(s) < MAX64 && SaneClock(op) && KeepsUser(op) ==>
      Onward(s, t) && (EndsGeneration(op, outcome) ==> GenOf(t) > GenOf(s))
  }

  lemma CallKeeps(s: Store, op: Op)
    ensures Kept(s, op, Apply(s, op).0, Apply(s, op).1)
  {
    hide Apply, Onward;
    if Readable(s) && GenOf(s) < MAX64 && SaneClock(op) && KeepsUser(op) { StepOnward(s, op); }
  }

  class SessionRepository {
    var session: Option<Payload>
    var device: Option<Device>
    var migrated: bool

    ghost function View(): Store
      reads this
    {
      Store(session, device, migrated)
    }

    constructor (session: Option<Payload>, device: Option<Device>, migrated: bool)
      ensures View() == Store(session, device, migrated)
    {
      this.session, this.device, this.migrated := session, device, migrated;
    }

    method LoadSnapshot(clock: int) returns (view: Outcome)
      modifies this
      ensures (View(), view) == Apply(old(View()), SessionModel.LoadSnapshot(clock))
      ensures Kept(old(View()), SessionModel.LoadSnapshot(clock), View(), view)
    {
      CallKeeps(View(), SessionModel.LoadSnapshot(clock));
      hide Kept;
      view := Snapshot(0, None);
      if session.None? || session.value.NotObject? || session.value == EMPTY_OBJECT { return; }
      var payload := session.value;
      if IsEnvelope(payload) {
        var generation := ReadGeneration(payload);
        if generation.None? { return; }
        var info := ReadProtected(payload);
        if info.Some? && IsEmptySession(info.value) { info := None; }
        return Snapshot(generation.value, info);
      }
      if migrated || payload.legacy.None? || IsEmptySession(payload.legacy.value) { return; }
      var generation := NextGeneration(session, clock);
      session := Some(Object(Some(1), GenIs(generation), Sealed(payload.legacy.value), None,
                             payload.key, payload.attempt, None));
      migrated := true;
      return Snapshot(generation, payload.legacy);
    }

    method CaptureIdentity(initial: Option<DeviceInfo>, expectedAccount: Option<nat>, clock: int)
      returns (view: Outcome)
      modifies this
      ensures (View(), view) == Apply(old(View()), SessionModel.CaptureIdentity(initial, expectedAccount, clock))
      ensures Kept(old(View()), SessionModel.CaptureIdentity(initial, expectedAccount, clock), View(), view)
    {
      CallKeeps(View(), SessionModel.CaptureIdentity(initial, expectedAccount, clock));
      hide Kept;
      var _ := LoadSnapshot(clock);
      var account := 0;
      var info: Option<SessionInfo> := None;
      var repaired := false;
      var payload := session;
      if session.Some? {
        var generation := ReadGeneration(session.value);
        if generation.Some? {
          account := generation.value;
          info := Visible(session.value);
        } else if initial.Some? && expectedAccount.None? {
          account := NextGeneration(session, clock);
          payload := Some(Envelope(account, NoData));
          repaired := true;
        }
      }
      if initial.Some? && (expectedAccount.None? || expectedAccount.value == account) {
        if device.None? || device.value.info != initial.value {
          if !Stampable(device) { return Threw; }
          device := Some(Stamp(initial.value, device));
          session := Some(payload.GetOr(EMPTY_OBJECT));
          return Identity(Version(account, device.value.revision), info, device.value);
        }
      }
      if repaired {
        session := payload;
        device := Some(DeviceOf(device));
      }
      return Identity(Version(account, Revision(device)), info, DeviceOf(device));
    }

    method BeginRuntimeEpoch(clock: int) returns (outcome: Outcome)
      modifies this
      ensures (View(), outcome) == Apply(old(View()), SessionModel.BeginRuntimeEpoch(clock))
      ensures Kept(old(View()), SessionModel.BeginRuntimeEpoch(clock), View(), outcome)
    {
      CallKeeps(View(), SessionModel.BeginRuntimeEpoch(clock));
      hide Kept;
      var _ := LoadSnapshot(clock);
      var payload := EMPTY_OBJECT;
      if session.Some? && ReadGeneration(session.value).Some? && ReadProtected(session.value).Some? {
        payload := session.value;
      }
      if !Stampable(device) { return Threw; }
      payload := payload.(version := Some(1), gen := GenIs(NextGeneration(session, clock)));
      payload := payload.(key := None, attempt := None);
      session := Some(payload);
      device := Some(Stamp(DeviceOf(device).info, device));
      return Done;
    }

    method Save(info: SessionInfo, clock: int) returns (generation: nat)
      modifies this
      ensures (View(), Generation(generation)) == Apply(old(View()), SessionModel.Save(info, clock))
      ensures Kept(old(View()), SessionModel.Save(info, clock), View(), Generation(generation))
    {
      CallKeeps(View(), SessionModel.Save(info, clock));
      hide Kept;
      generation := NextGeneration(session, clock);
      session := Some(Envelope(generation, Sealed(info)));
    }

    method Clear(clock: int)
      modifies this
      ensures View() == Apply(old(View()), SessionModel.Clear(clock)).0
      ensures Kept(old(View()), SessionModel.Clear(clock), View(), Done)
    {
      CallKeeps(View(), SessionModel.Clear(clock));
      hide Kept;
      session := Some(Envelope(NextGeneration(session, clock), NoData));
    }

    method ClearWithDevice(clock: int) returns (outcome: Outcome)
      modifies this
      ensures (View(), outcome) == Apply(old(View()), SessionModel.ClearWithDevice(clock))
      ensures Kept(old(View()), SessionModel.ClearWithDevice(clock), View(), outcome)
    {
      CallKeeps(View(), SessionModel.ClearWithDevice(clock));
      hide Kept;
      if !Stampable(device) { return Threw; }
      session := Some(Envelope(NextGeneration(session, clock), NoData));
      device := Some(Stamp(EMPTY_DEVICE, device));
      return Done;
    }

    method PatchIfGeneration(expected: nat, mutator: SessionInfo -> SessionInfo) returns (outcome: Outcome)
      modifies this
      ensures (View(), outcome) == Apply(old(View()), SessionModel.PatchIfGeneration(expected, mutator))
      ensures Kept(old(View()), SessionModel.PatchIfGeneration(expected, mutator), View(), outcome)
    {
      CallKeeps(View(), SessionModel.PatchIfGeneration(expected, mutator));
      hide Kept;
      if session.None? || session.value.NotObject? || session.value == EMPTY_OBJECT { return Refused; }
      var current := session.value;
      var generation := ReadGeneration(current);
      if generation.None? || generation.value != expected { return Refused; }
      var stored := ReadProtected(current);
      if stored.None? || IsEmptySession(stored.value) { return Refused; }
      var info := mutator(stored.value);
      var payload := Envelope(expected, Sealed(info));
      if current.refresh.Some? { payload := payload.(refresh := current.refresh); }
      if current.key.Some? { payload := payload.(key := current.key); }
      if current.attempt.Some? { payload := payload.(attempt := current.attempt); }
      session := Some(payload);
      return Patched(info);
    }

    method PatchIdentity(expected: Version, profile: Option<Profile>, credentials: Option<Credentials>, permit: Permit)
      returns (outcome: Outcome)
      modifies this
      ensures (View(), outcome) ==
              Apply(old(View()), SessionModel.PatchIdentity(expected, profile, credentials, permit))
      ensures Kept(old(View()), SessionModel.PatchIdentity(expected, profile, credentials, permit), View(), outcome)
    {
      CallKeeps(View(), SessionModel.PatchIdentity(expected, profile, credentials, permit));
      hide Kept;
      if session.None? || ReadGeneration(session.value) != Some(expected.account) { return Refused; }
      if credentials.Some? && Revision(device) != expected.device { return Refused; }
      var stored := ReadProtected(session.value);
      if stored.None? || IsEmptySession(stored.value) { return Refused; }
      var current := stored.value;
      if profile.Some? {
        if profile.value.nickname != "" { current := current.(nickname := profile.value.nickname); }
        if profile.value.pic != "" { current := current.(pic := profile.value.pic); }
      }
      if credentials.Some? {
        var c := credentials.value;
        current := current.(token := c.token, vipToken := c.vipToken);
        current := current.(t1 := c.t1, vipType := c.vipType);
      }
      if permit != Granted { return Refused; }
      session := Some(session.value.(data := Sealed(current)));
      device := Some(DeviceOf(device));
      return Patched(current);
    }

    method CommitRegistration(expected: Version, dfid: string, permit: Permit) returns (outcome: Outcome)
      modifies this
      ensures (View(), outcome) == Apply(old(View()), SessionModel.CommitRegistration(expected, dfid, permit))
      ensures Kept(old(View()), SessionModel.CommitRegistration(expected, dfid, permit), View(), outcome)
    {
      CallKeeps(View(), SessionModel.CommitRegistration(expected, dfid, permit));
      hide Kept;
      if dfid == "" { return Threw; }
      var updated := if device.Some? then device.value.info else EMPTY_DEVICE;
      updated := updated.(dfid := dfid, registered := true);
      outcome := CommitDevice(expected, updated, permit);
    }

    method ReplaceDevice(expected: Version, replacement: DeviceInfo, permit: Permit) returns (outcome: Outcome)
      modifies this
      ensures (View(), outcome) == Apply(old(View()), SessionModel.ReplaceDevice(expected, replacement, permit))
      ensures Kept(old(View()), SessionModel.ReplaceDevice(expected, replacement, permit), View(), outcome)
    {
      CallKeeps(View(), SessionModel.ReplaceDevice(expected, replacement, permit));
      hide Kept;
      outcome := CommitDevice(expected, replacement, permit);
    }

    method CommitDevice(expected: Version, info: DeviceInfo, permit: Permit) returns (outcome: Outcome)
      modifies this
      ensures (View(), outcome) == DoDeviceCommit(old(View()), expected, info, permit)
    {
      var generation := if session.Some? then ReadGeneration(session.value) else Some(0);
      if generation.None? || generation.value != expected.account { return Committed(StaleAccount); }
      if Revision(device) != expected.device { return Committed(StaleDevice); }
      if !Stampable(device) { return Threw; }
      var payload := Stamp(info, device);
      if permit == PastDeadline { return Committed(DeadlineBeforeCommit); }
      if permit == Stopped { return Committed(CancelledBeforeCommit); }
      session := Some(session.GetOr(EMPTY_OBJECT));
      device := Some(payload);
      return Committed(Applied);
    }

    method SetActiveLoginKey(key: string)
      modifies this
      ensures View() == Apply(old(View()), SessionModel.SetActiveLoginKey(key)).0
      ensures Kept(old(View()), SessionModel.SetActiveLoginKey(key), View(), Done)
    {
      CallKeeps(View(), SessionModel.SetActiveLoginKey(key));
      hide Kept;
      if key == "" { return; }
      var payload := LoginBase(session);
      session := Some(payload.(key := Some(key)));
    }

    method BeginLoginAttempt(attempt: string)
      modifies this
      ensures View() == Apply(old(View()), SessionModel.BeginLoginAttempt(attempt)).0
      ensures Kept(old(View()), SessionModel.BeginLoginAttempt(attempt), View(), Done)
    {
      CallKeeps(View(), SessionModel.BeginLoginAttempt(attempt));
      hide Kept;
      var payload := LoginBase(session);
      payload := payload.(key := None);
      session := Some(payload.(attempt := Some(attempt)));
    }

    method PublishLoginKey(attempt: string, key: string, canPublish: bool, expecting: Option<Version>)
      returns (ok: bool)
      modifies this
      ensures var r := Apply(old(View()), SessionModel.PublishLoginKey(attempt, key, canPublish, expecting));
              View() == r.0 && ok == r.1.Done?
      ensures Kept(old(View()), SessionModel.PublishLoginKey(attempt, key, canPublish, expecting), View(),
                   if ok then Done else Refused)
    {
      CallKeeps(View(), SessionModel.PublishLoginKey(attempt, key, canPublish, expecting));
      hide Kept;
      if attempt == "" || key == "" { return false; }
      if session.None? || session.value.NotObject? || session.value.attempt != Some(attempt) { return false; }
      if expecting.Some? {
        if ReadGeneration(session.value) != Some(expecting.value.account) { return false; }
        if Revision(device) != expecting.value.device { return false; }
      }
      if !canPublish { return false; }
      session := Some(session.value.(key := Some(key)));
      device := Some(DeviceOf(device));
      return true;
    }

    method CancelLoginAttempt(attempt: string)
      modifies this
      ensures View() == Apply(old(View()), SessionModel.CancelLoginAttempt(attempt)).0
      ensures Kept(old(View()), SessionModel.CancelLoginAttempt(attempt), View(), Done)
    {
      CallKeeps(View(), SessionModel.CancelLoginAttempt(attempt));
      hide Kept;
      if attempt == "" { return; }
      if session.None? || session.value.NotObject? || session.value.attempt != Some(attempt) { return; }
      session := Some(session.value.(key := None, attempt := None));
    }

    method ClearActiveLoginKey(key: string)
      modifies this
      ensures View() == Apply(old(View()), SessionModel.ClearActiveLoginKey(key)).0
      ensures Kept(old(View()), SessionModel.ClearActiveLoginKey(key), View(), Done)
    {
      CallKeeps(View(), SessionModel.ClearActiveLoginKey(key));
      hide Kept;
      if session.None? || session.value.NotObject? { return; }
      if key != "" && session.value.key.Some? {
        if session.value.key.value != key { return; }
      }
      session := Some(session.value.(key := None));
    }

    method CommitLoginAttempt(generation: nat, key: string, info: SessionInfo, newDevice: Option<DeviceInfo>,
                              canCommit: bool, deviceRevision: Option<nat>, clock: int) returns (outcome: Outcome)
      modifies this
      ensures (View(), outcome) ==
              Apply(old(View()), SessionModel.CommitLoginAttempt(generation, key, info, newDevice, canCommit,
                                                                 deviceRevision, clock))
      ensures Kept(old(View()), SessionModel.CommitLoginAttempt(generation, key, info, newDevice, canCommit,
                                                                deviceRevision, clock),
                   View(), outcome)
    {
      CallKeeps(View(), SessionModel.CommitLoginAttempt(generation, key, info, newDevice, canCommit,
                                                        deviceRevision, clock));
      hide Kept;
      if key == "" || info.token == "" || info.userId == "" { return Refused; }
      if deviceRevision.Some? && Revision(device) != deviceRevision.value { return Refused; }
      if session.None? || session.value.NotObject? { return Refused; }
      var current := ReadGeneration(session.value);
      if current.None? || current.value != generation || session.value.key != Some(key) { return Refused; }
      var payload := Envelope(NextGeneration(session, clock), Sealed(info));
      if !canCommit { return Refused; }
      if newDevice.Some? {
        if !Stampable(device) { return Threw; }
        device := Some(Stamp(newDevice.value, device));
      } else {
        device := Some(DeviceOf(device));
      }
      session := Some(payload);
      return Done;
    }

    /** `claim` is the id that the process-wide sequence yields next. */
    method TryClaimLazyVipRefresh(generation: nat, now: int, epoch: string, claim: string) returns (outcome: Outcome)
      modifies this
      ensures (View(), outcome) == Apply(old(View()), TryClaim(generation, now, epoch, claim))
      ensures Kept(old(View()), TryClaim(generation, now, epoch, claim), View(), outcome)
    {
      CallKeeps(View(), TryClaim(generation, now, epoch, claim));
      hide Kept;
      if epoch == "" || |epoch| > 64 { return Refused; }
      if session.None? || session.value.NotObject? || session.value == EMPTY_OBJECT { return Refused; }
      var current := session.value;
      if ReadGeneration(current) != Some(generation) { return Refused; }
      var stored := ReadProtected(current);
      if stored.None? || IsEmptySession(stored.value) { return Refused; }
      if stored.value.userId == "" || stored.value.token == "" || stored.value.vipToken != "" { return Refused; }
      if current.refresh.Some? {
        var suppressed := IsSuppressed(current.refresh.value, epoch, now);
        if suppressed { return Refused; }
      }
      session := Some(current.(refresh := Some(InFlight(epoch, claim))));
      return Claimed(Ticket(generation, epoch, claim), stored.value);
    }

    method FinishLazyVipRefresh(ticket: Ticket, completedAt: int) returns (applied: bool)
      modifies this
      ensures var r := Apply(old(View()), Finish(ticket, completedAt)); View() == r.0 && applied == r.1.Done?
      ensures Kept(old(View()), Finish(ticket, completedAt), View(), if applied then Done else Refused)
    {
      CallKeeps(View(), Finish(ticket, completedAt));
      hide Kept;
      if ticket.epoch == "" || ticket.claim == "" { return false; }
      if session.None? || session.value.NotObject? || session.value == EMPTY_OBJECT { return false; }
      var current := session.value;
      if ReadGeneration(current) != Some(ticket.generation) || current.refresh.None? { return false; }
      var meta := current.refresh.value;
      if !meta.InFlight? || meta.epoch != ticket.epoch || meta.claim != ticket.claim { return false; }
      var deadline := CooldownDeadline(completedAt);
      session := Some(current.(refresh := Some(Cooling(ticket.epoch, ticket.claim, completedAt, deadline))));
      return true;
    }
  }

  /**
   Stored metadata suppress a refresh only for the process that claimed it, or inside the
   cooldown, and then for less than its length on any clock: malformed metadata, a claim of
   another process and a deadline that is past or too far away never do.
   */
  method IsSuppressed(meta: Lazy, epoch: string, now: int) returns (suppressed: bool)
    ensures suppressed == Suppressed(meta, epoch, now)
    ensures suppressed && meta.Cooling? ==> 0 <= now < meta.retryAt <= now + COOLDOWN_MS
    ensures suppressed && meta.InFlight? ==> meta.epoch == epoch && meta.claim != ""
    ensures suppressed && meta.Cooling? ==> forall other :: Suppressed(meta, epoch, other) ==>
              -COOLDOWN_MS < other - now < COOLDOWN_MS
    ensures meta.MalformedLazy? || (meta.InFlight? && meta.epoch != epoch) ==> !suppressed
  {
    if meta.MalformedLazy? { return false; }
    if meta.InFlight? { return meta.epoch == epoch && meta.claim != ""; }
    if now < 0 || meta.retryAt <= now { return false; }
    return meta.retryAt - now <= COOLDOWN_MS;
  }
}
