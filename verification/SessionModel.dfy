/**
 The stored account record and device record, and what each repository call does to them.
 A call is one atomic read-modify-write; a call that throws leaves both records alone.
 */
module SessionModel {
  import opened Wrappers

  const MAX64: nat := 0xFFFF_FFFF_FFFF_FFFF
  const MAX_TIME: int := 0x7FFF_FFFF_FFFF_FFFF
  const COOLDOWN_MS: int := 30_000

  datatype SessionInfo = SessionInfo(
    token: string, userId: string, t1: string, nickname: string, pic: string, vipToken: string, vipType: int)

  /** The `gen` field of the record: absent, unreadable, or an unsigned 64-bit number. */
  datatype Gen = GenAbsent | GenUnreadable | GenIs(value: nat)

  /** The encrypted part, as far as this user can open it. */
  datatype Protected = NoData | Undecipherable | Sealed(info: SessionInfo)

  datatype Lazy =
    | InFlight(epoch: string, claim: string)
    | Cooling(epoch: string, claim: string, completedAt: int, retryAt: int)
    | MalformedLazy

  /** `legacy` stands for the bare credentials of a record older than the envelope. */
  datatype Payload =
    | NotObject
    | Object(version: Option<int>, gen: Gen, data: Protected, legacy: Option<SessionInfo>,
             key: Option<string>, attempt: Option<string>, refresh: Option<Lazy>)

  datatype DeviceInfo = DeviceInfo(dfid: string, registered: bool, rest: string)

  datatype Device = Device(info: DeviceInfo, revision: nat)

  datatype Store = Store(session: Option<Payload>, device: Option<Device>, migrated: bool)

  datatype Version = Version(account: nat, device: nat)

  datatype Ticket = Ticket(generation: nat, epoch: string, claim: string)

  /** The answer of TryCommit, with the reason when it is no. */
  datatype Permit = Granted | PastDeadline | Stopped

  datatype CommitResult = Applied | StaleAccount | StaleDevice | DeadlineBeforeCommit | CancelledBeforeCommit

  datatype Profile = Profile(nickname: string, pic: string)

  datatype Credentials = Credentials(token: string, vipToken: string, t1: string, vipType: int)

  // ------------------------------------------------------------- reading

  const EMPTY_DEVICE: DeviceInfo := DeviceInfo("", false, "")
  const EMPTY_OBJECT: Payload := Object(None, GenAbsent, NoData, None, None, None, None)

  function ReadGeneration(p: Payload): Option<nat> {
    match p
    case NotObject => Some(0)
    case Object(_, GenAbsent, _, _, _, _, _) => Some(0)
    case Object(_, GenUnreadable, _, _, _, _, _) => None
    case Object(_, GenIs(n), _, _, _, _, _) => Some(n)
  }

  /** `clock` is the wall clock; it only matters for a record whose generation is unusable. */
  function NextGeneration(current: Option<Payload>, clock: int): nat {
    if current.None? then 1
    else
      var g := ReadGeneration(current.value);
      if current.value.Object? && g.Some? && g.value < MAX64 then g.value + 1
      else if clock > 1 then clock else 1
  }

  predicate IsEmptySession(s: SessionInfo) {
    s.token == "" && s.userId == "" && s.t1 == "" && s.nickname == "" && s.pic == ""
  }

  function ReadProtected(p: Payload): Option<SessionInfo> {
    if p.Object? && p.version == Some(1) && p.data.Sealed? then Some(p.data.info) else None
  }

  predicate IsEnvelope(p: Payload) {
    p.Object? && (p.version.Some? || !p.gen.GenAbsent? || !p.data.NoData?)
  }

  function Envelope(gen: nat, data: Protected): Payload {
    Object(Some(1), GenIs(gen), data, None, None, None, None)
  }

  function Revision(d: Option<Device>): nat { if d.Some? then d.value.revision else 0 }

  function DeviceOf(d: Option<Device>): Device { if d.Some? then d.value else Device(EMPTY_DEVICE, 0) }

  /** StampDevice throws once the revision is exhausted. */
  predicate Stampable(d: Option<Device>) { Revision(d) < MAX64 }

  function Stamp(info: DeviceInfo, d: Option<Device>): Device { Device(info, Revision(d) + 1) }

  // -------------------------------------------------- the refresh cooldown

  function CooldownDeadline(completed: int): int {
    if completed < 0 then completed
    else if completed > MAX_TIME - COOLDOWN_MS then MAX_TIME
    else completed + COOLDOWN_MS
  }

  predicate Suppressed(meta: Lazy, epoch: string, now: int) {
    match meta
    case MalformedLazy => false
    case InFlight(e, c) => e == epoch && c != ""
    case Cooling(_, _, _, retryAt) => now >= 0 && retryAt > now && retryAt - now <= COOLDOWN_MS
  }

  // ------------------------------------------------------- the operations

  datatype Op =
    | LoadSnapshot(clock: int)
    | CaptureIdentity(initial: Option<DeviceInfo>, expectedAccount: Option<nat>, clock: int)
    | BeginRuntimeEpoch(clock: int)
    | Save(info: SessionInfo, clock: int)
    | Clear(clock: int)
    | ClearWithDevice(clock: int)
    | PatchIfGeneration(generation: nat, mutator: SessionInfo -> SessionInfo)
    | PatchIdentity(expected: Version, profile: Option<Profile>, credentials: Option<Credentials>, permit: Permit)
    | CommitRegistration(expected: Version, dfid: string, permit: Permit)
    | ReplaceDevice(expected: Version, replacement: DeviceInfo, permit: Permit)
    | SetActiveLoginKey(key: string)
    | BeginLoginAttempt(attempt: string)
    | PublishLoginKey(attempt: string, key: string, canPublish: bool, expecting: Option<Version>)
    | CancelLoginAttempt(attempt: string)
    | ClearActiveLoginKey(key: string)
    | CommitLoginAttempt(generation: nat, key: string, info: SessionInfo, newDevice: Option<DeviceInfo>,
                         canCommit: bool, deviceRevision: Option<nat>, clock: int)
    | TryClaim(generation: nat, now: int, epoch: string, claim: string)
    | Finish(ticket: Ticket, completedAt: int)
    | SaveDevice(device: DeviceInfo)
    | ClearDevice

  datatype Outcome =
    | Done
    | Refused
    | Threw
    | Generation(value: nat)
    | Committed(result: CommitResult)
    | Patched(info: SessionInfo)
    | Snapshot(generation: nat, session: Option<SessionInfo>)
    | Identity(version: Version, session: Option<SessionInfo>, device: Device)
    | Claimed(ticket: Ticket, info: SessionInfo)

  /** One-time encryption of a legacy record; None when there is nothing to migrate. */
  function Migrated(current: Option<Payload>, migrated: bool, clock: int): Option<Payload> {
    if current.None? || !current.value.Object? || current.value == EMPTY_OBJECT || IsEnvelope(current.value) then None
    else if migrated || current.value.legacy.None? || IsEmptySession(current.value.legacy.value) then None
    else
      var p := current.value;
      Some(Object(Some(1), GenIs(NextGeneration(current, clock)), Sealed(p.legacy.value), None, p.key, p.attempt, None))
  }

  function DoLoad(s: Store, clock: int): (Store, Outcome) {
    if s.session.None? || !s.session.value.Object? || s.session.value == EMPTY_OBJECT then (s, Snapshot(0, None))
    else
      var p := s.session.value;
      if IsEnvelope(p) then
        var g, info := ReadGeneration(p), ReadProtected(p);
        if g.None? then (s, Snapshot(0, None))
        else (s, Snapshot(g.value, if info.Some? && !IsEmptySession(info.value) then info else None))
      else
        var next := Migrated(s.session, s.migrated, clock);
        if next.None? then (s, Snapshot(0, None))
        else (s.(session := next, migrated := true), Snapshot(NextGeneration(s.session, clock), p.legacy))
  }

  function Visible(p: Payload): Option<SessionInfo> {
    var info := ReadProtected(p);
    if info.Some? && !IsEmptySession(info.value) then info else None
  }

  function DoCapture(s0: Store, initial: Option<DeviceInfo>, expected: Option<nat>, clock: int): (Store, Outcome) {
    var s := DoLoad(s0, clock).0;
    var g := if s.session.Some? then ReadGeneration(s.session.value) else Some(0);
    var repaired := g.None? && initial.Some? && expected.None?;
    var account := if g.Some? then g.value else if repaired then NextGeneration(s.session, clock) else 0;
    var session := if repaired then Some(Envelope(account, NoData)) else s.session;
    var info := if s.session.Some? && g.Some? then Visible(s.session.value) else None;
    var d := DeviceOf(s.device);
    if initial.Some? && (expected.None? || expected.value == account)
       && (s.device.None? || initial.value != s.device.value.info) then
      if !Stampable(s.device) then (s, Threw)
      else
        var stamped := Stamp(initial.value, s.device);
        (s.(session := Some(session.GetOr(EMPTY_OBJECT)), device := Some(stamped)),
         Identity(Version(account, stamped.revision), info, stamped))
    else if repaired then
      (s.(session := session, device := Some(d)), Identity(Version(account, d.revision), info, d))
    else (s, Identity(Version(account, d.revision), info, d))
  }

  function DoBeginEpoch(s0: Store, clock: int): (Store, Outcome) {
    var s := DoLoad(s0, clock).0;
    var readable := s.session.Some? && ReadGeneration(s.session.value).Some? && ReadProtected(s.session.value).Some?;
    if !Stampable(s.device) then (s, Threw)
    else
      var base := if readable then s.session.value else EMPTY_OBJECT;
      var next := base.(version := Some(1), gen := GenIs(NextGeneration(s.session, clock)),
                        key := None, attempt := None);
      (s.(session := Some(next), device := Some(Stamp(DeviceOf(s.device).info, s.device))), Done)
  }

  function DoPatchIfGeneration(s: Store, generation: nat, mutator: SessionInfo -> SessionInfo): (Store, Outcome) {
    if s.session.None? || !s.session.value.Object? || s.session.value == EMPTY_OBJECT then (s, Refused)
    else
      var p := s.session.value;
      var info := ReadProtected(p);
      if ReadGeneration(p) != Some(generation) || info.None? || IsEmptySession(info.value) then (s, Refused)
      else
        var next := Object(Some(1), GenIs(generation), Sealed(mutator(info.value)), None, p.key, p.attempt, p.refresh);
        (s.(session := Some(next)), Patched(mutator(info.value)))
  }

  function PatchInfo(info: SessionInfo, profile: Option<Profile>, credentials: Option<Credentials>): SessionInfo {
    var a :=
      if profile.None? then info
      else info.(nickname := if profile.value.nickname != "" then profile.value.nickname else info.nickname,
                 pic := if profile.value.pic != "" then profile.value.pic else info.pic);
    if credentials.None? then a
    else a.(token := credentials.value.token, vipToken := credentials.value.vipToken,
            t1 := credentials.value.t1, vipType := credentials.value.vipType)
  }

  function DoPatchIdentity(s: Store, expected: Version, profile: Option<Profile>, credentials: Option<Credentials>,
                           permit: Permit): (Store, Outcome)
  {
    if s.session.None? || ReadGeneration(s.session.value) != Some(expected.account)
       || (credentials.Some? && Revision(s.device) != expected.device) then (s, Refused)
    else
      var info := ReadProtected(s.session.value);
      if info.None? || IsEmptySession(info.value) || permit != Granted then (s, Refused)
      else
        var patched := PatchInfo(info.value, profile, credentials);
        (s.(session := Some(s.session.value.(data := Sealed(patched))), device := Some(DeviceOf(s.device))),
         Patched(patched))
  }

  /** The shared shape of the two conditional device commits. */
  function DoDeviceCommit(s: Store, expected: Version, info: DeviceInfo, permit: Permit): (Store, Outcome) {
    var g := if s.session.Some? then ReadGeneration(s.session.value) else Some(0);
    if g != Some(expected.account) then (s, Committed(StaleAccount))
    else if Revision(s.device) != expected.device then (s, Committed(StaleDevice))
    else if !Stampable(s.device) then (s, Threw)
    else match permit
      case PastDeadline => (s, Committed(DeadlineBeforeCommit))
      case Stopped => (s, Committed(CancelledBeforeCommit))
      case Granted =>
        (s.(session := Some(s.session.GetOr(EMPTY_OBJECT)), device := Some(Stamp(info, s.device))), Committed(Applied))
  }

  /** A record that a login call may write its key or attempt into. */
  function LoginBase(current: Option<Payload>): Payload {
    if current.Some? && current.value.Object? then current.value
    else Object(Some(1), GenIs(0), NoData, None, None, None, None)
  }

  function DoPublish(s: Store, attempt: string, key: string, canPublish: bool, expecting: Option<Version>)
    : (Store, Outcome)
  {
    if attempt == "" || key == "" || s.session.None? || !s.session.value.Object?
       || s.session.value.attempt != Some(attempt) then (s, Refused)
    else if expecting.Some? && (ReadGeneration(s.session.value) != Some(expecting.value.account)
                                || Revision(s.device) != expecting.value.device) then (s, Refused)
    else if !canPublish then (s, Refused)
    else (s.(session := Some(s.session.value.(key := Some(key))), device := Some(DeviceOf(s.device))), Done)
  }

  function DoCancelLogin(s: Store, attempt: string): Store {
    if attempt == "" || s.session.None? || !s.session.value.Object? || s.session.value.attempt != Some(attempt) then s
    else s.(session := Some(s.session.value.(key := None, attempt := None)))
  }

  function DoClearKey(s: Store, key: string): Store {
    if s.session.None? || !s.session.value.Object? then s
    else if key != "" && s.session.value.key.Some? && s.session.value.key != Some(key) then s
    else s.(session := Some(s.session.value.(key := None)))
  }

  function DoCommitLogin(s: Store, op: Op): (Store, Outcome)
    requires op.CommitLoginAttempt?
  {
    if op.key == "" || op.info.token == "" || op.info.userId == "" then (s, Refused)
    else if op.deviceRevision.Some? && Revision(s.device) != op.deviceRevision.value then (s, Refused)
    else if s.session.None? || !s.session.value.Object? then (s, Refused)
    else if ReadGeneration(s.session.value) != Some(op.generation)
            || s.session.value.key != Some(op.key) then (s, Refused)
    else if !op.canCommit then (s, Refused)
    else if op.newDevice.Some? && !Stampable(s.device) then (s, Threw)
    else
      var device := if op.newDevice.Some? then Stamp(op.newDevice.value, s.device) else DeviceOf(s.device);
      (s.(session := Some(Envelope(NextGeneration(s.session, op.clock), Sealed(op.info))),
          device := Some(device)), Done)
  }

  function DoClaim(s: Store, generation: nat, now: int, epoch: string, claim: string): (Store, Outcome) {
    if epoch == "" || |epoch| > 64 || s.session.None? || !s.session.value.Object?
       || s.session.value == EMPTY_OBJECT then
      (s, Refused)
    else
      var p := s.session.value;
      var info := ReadProtected(p);
      if ReadGeneration(p) != Some(generation) || info.None? || IsEmptySession(info.value)
         || info.value.userId == "" || info.value.token == "" || info.value.vipToken != "" then (s, Refused)
      else if p.refresh.Some? && Suppressed(p.refresh.value, epoch, now) then (s, Refused)
      else (s.(session := Some(p.(refresh := Some(InFlight(epoch, claim))))),
            Claimed(Ticket(generation, epoch, claim), info.value))
  }

  /** Whether the record carries exactly this ticket's claim, still in flight. */
  predicate IsStoredClaim(s: Store, ticket: Ticket) {
    && ticket.epoch != "" && ticket.claim != ""
    && s.session.Some? && s.session.value.Object?
    && ReadGeneration(s.session.value) == Some(ticket.generation)
    && s.session.value.refresh == Some(InFlight(ticket.epoch, ticket.claim))
  }

  function DoFinish(s: Store, ticket: Ticket, completedAt: int): (Store, Outcome) {
    if !IsStoredClaim(s, ticket) then (s, Refused)
    else
      var cooling := Cooling(ticket.epoch, ticket.claim, completedAt, CooldownDeadline(completedAt));
      (s.(session := Some(s.session.value.(refresh := Some(cooling)))), Done)
  }

  function Apply(s: Store, op: Op): (Store, Outcome) {
    match op
    case LoadSnapshot(clock) => DoLoad(s, clock)
    case CaptureIdentity(initial, expected, clock) => DoCapture(s, initial, expected, clock)
    case BeginRuntimeEpoch(clock) => DoBeginEpoch(s, clock)
    case Save(info, clock) =>
      var g := NextGeneration(s.session, clock);
      (s.(session := Some(Envelope(g, Sealed(info)))), Generation(g))
    case Clear(clock) => (s.(session := Some(Envelope(NextGeneration(s.session, clock), NoData))), Done)
    case ClearWithDevice(clock) =>
      if !Stampable(s.device) then (s, Threw)
      else (s.(session := Some(Envelope(NextGeneration(s.session, clock), NoData)),
               device := Some(Stamp(EMPTY_DEVICE, s.device))), Done)
    case PatchIfGeneration(generation, mutator) => DoPatchIfGeneration(s, generation, mutator)
    case PatchIdentity(expected, profile, credentials, permit) =>
      DoPatchIdentity(s, expected, profile, credentials, permit)
    case CommitRegistration(expected, dfid, permit) =>
      if dfid == "" then (s, Threw)
      else DoDeviceCommit(s, expected, DeviceOf(s.device).info.(dfid := dfid, registered := true), permit)
    case ReplaceDevice(expected, replacement, permit) => DoDeviceCommit(s, expected, replacement, permit)
    case SetActiveLoginKey(key) =>
      if key == "" then (s, Done) else (s.(session := Some(LoginBase(s.session).(key := Some(key)))), Done)
    case BeginLoginAttempt(attempt) =>
      (s.(session := Some(LoginBase(s.session).(key := None, attempt := Some(attempt)))), Done)
    case PublishLoginKey(attempt, key, canPublish, expecting) => DoPublish(s, attempt, key, canPublish, expecting)
    case CancelLoginAttempt(attempt) => (DoCancelLogin(s, attempt), Done)
    case ClearActiveLoginKey(key) => (DoClearKey(s, key), Done)
    case CommitLoginAttempt(_, _, _, _, _, _, _) => DoCommitLogin(s, op)
    case TryClaim(generation, now, epoch, claim) => DoClaim(s, generation, now, epoch, claim)
    case Finish(ticket, completedAt) => DoFinish(s, ticket, completedAt)
    case SaveDevice(device) =>
      if !Stampable(s.device) then (s, Threw) else (s.(device := Some(Stamp(device, s.device))), Done)
    case ClearDevice =>
      if !Stampable(s.device) then (s, Threw) else (s.(device := Some(Stamp(EMPTY_DEVICE, s.device))), Done)
  }
}
