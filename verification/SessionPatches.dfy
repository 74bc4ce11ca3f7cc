/**
 Partial writes to a standing login, seen through the calls that read: profile and
 credential patches, device commits, identity captures and refresh claims.
 */
module SessionPatches {
  import opened Wrappers
  import opened SessionModel
  import opened SessionProofs
  import opened SessionClaims
  import opened SessionEffects

  // ---------------------------------------------------------------- patches

  function Fill(patch: string, stored: string): string { if patch == "" then stored else patch }

  /** A patch as its reader sees it, field by field: blanks in a profile change nothing. */
  predicate IsPatched(info: SessionInfo, profile: Option<Profile>, credentials: Option<Credentials>, r: SessionInfo) {
    && r.userId == info.userId
    && r.nickname == (if profile.Some? then Fill(profile.value.nickname, info.nickname) else info.nickname)
    && r.pic == (if profile.Some? then Fill(profile.value.pic, info.pic) else info.pic)
    && (if credentials.Some? then
          && r.token == credentials.value.token && r.vipToken == credentials.value.vipToken
          && r.t1 == credentials.value.t1 && r.vipType == credentials.value.vipType
        else
          r.token == info.token && r.vipToken == info.vipToken && r.t1 == info.t1 && r.vipType == info.vipType)
  }

  /** The login attempt, the refresh claim and the device stay as they were. */
  predicate OnlySession(s: Store, t: Store) {
    SameAttempt(s, t) && RefreshOf(t) == RefreshOf(s) && SameDevice(s, t)
  }

  /**
   A patch of a standing login is applied exactly when it names the login's generation, for
   credentials also the device revision, and is permitted; later loads return what it made.
   */
  lemma PatchesExactly(s: Store, op: Op, gen: nat, info: SessionInfo)
    requires LoggedIn(s, gen, info) && op.PatchIdentity?
    ensures var t, o := Apply(s, op).0, Apply(s, op).1;
            if op.expected.account == gen && op.permit == Granted
               && (op.credentials.Some? ==> op.expected.device == Revision(s.device))
            then o.Patched? && IsPatched(info, op.profile, op.credentials, o.info)
                 && Loads(t, gen, Shown(o.info)) && OnlySession(s, t)
            else t == s && o == Refused
  {
    LoggedInIs(s, gen, info);
    hide Loads, LoggedIn;
    if Apply(s, op).1.Patched? { EnvelopeLoads(Apply(s, op).0); }
  }

  /** The same for a patch by a function of the session. */
  lemma PatchesGenerationExactly(s: Store, op: Op, gen: nat, info: SessionInfo)
    requires LoggedIn(s, gen, info) && op.PatchIfGeneration?
    ensures var t, o := Apply(s, op).0, Apply(s, op).1;
            if op.generation == gen
            then o == Patched(op.mutator(info)) && Loads(t, gen, Shown(op.mutator(info))) && OnlySession(s, t)
            else t == s && o == Refused
  {
    LoggedInIs(s, gen, info);
    hide Loads, LoggedIn;
    if Apply(s, op).1.Patched? { EnvelopeLoads(Apply(s, op).0); }
  }

  /** Nobody logged in, nothing to patch and nothing to refresh. */
  lemma NobodyIsPatched(s: Store, op: Op, gen: nat)
    requires Loads(s, gen, None) && Readable(s) && (op.PatchIdentity? || op.PatchIfGeneration? || op.TryClaim?)
    ensures Apply(s, op) == (s, Refused)
  {
    assert Apply(s, LoadSnapshot(0)) == (s, Snapshot(gen, None));
  }

  // ----------------------------------------------------------- device commits

  /** The answers of a conditional device write, in the order in which it asks. */
  function DeviceVerdict(s: Store, expected: Version, permit: Permit): Outcome {
    if expected.account != GenOf(s) then Committed(StaleAccount)
    else if expected.device != Revision(s.device) then Committed(StaleDevice)
    else if Revision(s.device) >= 0xFFFF_FFFF_FFFF_FFFF then Threw
    else match permit
      case PastDeadline => Committed(DeadlineBeforeCommit)
      case Stopped => Committed(CancelledBeforeCommit)
      case Granted => Committed(Applied)
  }

  /** The account, its attempt and its refresh claim stay as they were. */
  predicate OnlyDevice(s: Store, t: Store) {
    GenOf(t) == GenOf(s) && User(t) == User(s) && SameAttempt(s, t) && RefreshOf(t) == RefreshOf(s)
  }

  /** A replacement is applied for the versions it expects, and is then the device of record. */
  lemma ReplacesExactly(s: Store, expected: Version, device: DeviceInfo, permit: Permit)
    requires Readable(s)
    ensures var t, o := Apply(s, ReplaceDevice(expected, device, permit)).0,
                        Apply(s, ReplaceDevice(expected, device, permit)).1;
            && o == DeviceVerdict(s, expected, permit) && OnlyDevice(s, t)
            && (if o == Committed(Applied) then Stamped(s, t, device) else t == s)
  {
  }

  /** A registration changes the id and the mark of the device of record, and nothing else of it. */
  lemma RegistersExactly(s: Store, expected: Version, dfid: string, permit: Permit)
    requires Readable(s)
    ensures var t, o := Apply(s, CommitRegistration(expected, dfid, permit)).0,
                        Apply(s, CommitRegistration(expected, dfid, permit)).1;
            && o == (if dfid == "" then Threw else DeviceVerdict(s, expected, permit)) && OnlyDevice(s, t)
            && (if o == Committed(Applied)
                then Stamped(s, t, DeviceInfo(dfid, true, DeviceOf(s.device).info.rest)) else t == s)
  {
  }

  /** The account a reader finds is the same after a device write. */
  lemma DeviceWriteKeepsLogin(s: Store, op: Op, gen: nat, info: SessionInfo)
    requires LoggedIn(s, gen, info)
    requires op.ReplaceDevice? || op.CommitRegistration? || op.SaveDevice? || op.ClearDevice?
    ensures LoggedIn(Apply(s, op).0, gen, info)
  {
    LoggedInIs(s, gen, info);
    EnvelopeLoads(Apply(s, op).0);
  }

  /** The unconditional device writes, and the revision that runs out. */
  lemma SavesDevice(s: Store, device: DeviceInfo)
    requires Readable(s)
    ensures var t, o := Apply(s, SaveDevice(device)).0, Apply(s, SaveDevice(device)).1;
            && OnlyDevice(s, t)
            && (if Revision(s.device) < 0xFFFF_FFFF_FFFF_FFFF then o == Done && Stamped(s, t, device)
                else o == Threw && t == s)
    ensures var t, o := Apply(s, ClearDevice).0, Apply(s, ClearDevice).1;
            && OnlyDevice(s, t)
            && (if Revision(s.device) < 0xFFFF_FFFF_FFFF_FFFF then o == Done && Stamped(s, t, DeviceInfo("", false, ""))
                else o == Threw && t == s)
  {
  }

  // --------------------------------------------------------- identity captures

  /** Whether a capture writes the device it initialises. */
  predicate Initialises(s: Store, op: Op)
    requires op.CaptureIdentity?
  {
    && op.initial.Some? && (op.expectedAccount.None? || op.expectedAccount.value == GenOf(s))
    && (s.device.None? || s.device.value.info != op.initial.value)
  }

  /**
   A capture reports the account a load returns and the device of record, after it has
   stored the initial device where there was none or another one.
   */
  lemma CaptureReports(s: Store, op: Op, gen: nat, session: Option<SessionInfo>)
    requires op.CaptureIdentity? && Loads(s, gen, session) && Readable(s) && GenOf(s) == gen
    ensures var t, o := Apply(s, op).0, Apply(s, op).1;
            if Initialises(s, op) && Revision(s.device) >= 0xFFFF_FFFF_FFFF_FFFF then t == s && o == Threw
            else
              && o == Identity(Version(gen, Revision(t.device)), session, DeviceOf(t.device))
              && OnlyDevice(s, t)
              && (if Initialises(s, op) then Stamped(s, t, op.initial.value) else SameDevice(s, t))
  {
    LoadedNow(s, op.clock, gen, session);
    hide Loads;
    CaptureAfterLoad(s, op);
  }

  lemma LoadedNow(s: Store, clock: int, gen: nat, session: Option<SessionInfo>)
    requires Loads(s, gen, session)
    ensures DoLoad(s, clock) == (s, Snapshot(gen, session))
  {
    assert Apply(s, LoadSnapshot(clock)) == (s, Snapshot(gen, session));
  }

  lemma CaptureAfterLoad(s: Store, op: Op)
    requires op.CaptureIdentity? && Readable(s) && DoLoad(s, op.clock).0 == s && DoLoad(s, op.clock).1.Snapshot?
    requires GenOf(s) == DoLoad(s, op.clock).1.generation
    ensures var t, o := Apply(s, op).0, Apply(s, op).1;
            if Initialises(s, op) && Revision(s.device) >= 0xFFFF_FFFF_FFFF_FFFF then t == s && o == Threw
            else
              && o == Identity(Version(GenOf(s), Revision(t.device)), DoLoad(s, op.clock).1.session, DeviceOf(t.device))
              && OnlyDevice(s, t)
              && (if Initialises(s, op) then Stamped(s, t, op.initial.value) else SameDevice(s, t))
  {
  }

  /** A record whose generation cannot be read is repaired as nobody's, under the generation reported. */
  lemma CaptureRepairs(s: Store, op: Op, device: DeviceInfo)
    requires op.CaptureIdentity? && op.initial == Some(device) && op.expectedAccount == None && Stampable(s.device)
    requires s.session.Some? && ReadGeneration(s.session.value).None?
    ensures var t, o := Apply(s, op).0, Apply(s, op).1;
            && o.Identity? && o.session == None && Loads(t, o.version.account, None) && NoAttempt(t)
            && o.version.account == (if op.clock > 1 then op.clock else 1)
            && o.version.device == Revision(t.device) && o.device == DeviceOf(t.device) && o.device.info == device
  {
    UnreadableLoads(s, op.clock);
    EnvelopeLoads(Apply(s, op).0);
  }

  lemma UnreadableLoads(s: Store, clock: int)
    requires s.session.Some? && ReadGeneration(s.session.value).None?
    ensures DoLoad(s, clock) == (s, Snapshot(0, None))
  {
  }

  // ------------------------------------------------------------ refresh claims

  /** A refresh is due for a login that has no VIP token yet. */
  predicate WantsRefresh(info: SessionInfo) { info.userId != "" && info.token != "" && info.vipToken == "" }

  /**
   A claim on a standing login is granted exactly when it names the generation, a refresh is
   due and no earlier claim or cooldown suppresses it; it hands out that login.
   */
  lemma ClaimsExactly(s: Store, op: Op, gen: nat, info: SessionInfo)
    requires LoggedIn(s, gen, info) && op.TryClaim?
    ensures var t, o := Apply(s, op).0, Apply(s, op).1;
            if op.generation == gen && 0 < |op.epoch| <= 64 && WantsRefresh(info) && !Suppresses(s, op.epoch, op.now)
            then o == Claimed(Ticket(gen, op.epoch, op.claim), info) && LoggedIn(t, gen, info)
                 && RefreshOf(t) == Some(InFlight(op.epoch, op.claim)) && SameAttempt(s, t) && t.device == s.device
            else t == s && o == Refused
  {
    LoggedInIs(s, gen, info);
    hide Suppressed;
    if Apply(s, op).1.Claimed? { EnvelopeLoads(Apply(s, op).0); }
  }

  /** What a claim, its end at `c` and a second claim at `now` come to, for one login. */
  lemma RefreshesAgain(s: Store, first: Op, c: int, second: Op, gen: nat, info: SessionInfo)
    requires LoggedIn(s, gen, info) && WantsRefresh(info) && RefreshOf(s) == None
    requires first.TryClaim? && first.generation == gen && 0 < |first.epoch| <= 64 && first.claim != ""
    requires second.TryClaim? && second.generation == gen && 0 < |second.epoch| <= 64
    requires 0 <= c <= MAX_TIME - 30_000 && 0 <= second.now
    ensures var t := Apply(s, first).0;
            var u := Apply(t, Finish(Ticket(gen, first.epoch, first.claim), c)).0;
            && Apply(s, first).1.Claimed?
            && Apply(t, Finish(Ticket(gen, first.epoch, first.claim), c)).1 == Done
            && (Apply(u, second).1.Claimed? <==> !(c <= second.now < c + 30_000))
  {
    ClaimsExactly(s, first, gen, info);
    var t, ticket := Apply(s, first).0, Ticket(gen, first.epoch, first.claim);
    LoggedInIs(t, gen, info);
    CooldownWindow(t, ticket, c, second.epoch, second.now);
    var u := Apply(t, Finish(ticket, c)).0;
    EnvelopeLoads(u);
    ClaimsExactly(u, second, gen, info);
  }
}
