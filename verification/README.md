# BottlePlayer: verified models of the native core

BottlePlayer is a desktop music player. Its native layer runs several concurrent and
persistent protocols; this project models them in Dafny and proves what they are for.

- **Request scheduler** (`Scheduler*.dfy`, `LatestTokens.dfy`): worker threads over a bounded
  queue with an image quota, expiry, a draining and a bounded shutdown, and restart. One lock
  region, notification or thread start is one step, and the theorems range over every
  interleaving of steps. The class `RequestScheduler` performs the steps on its own fields.
- **Submission with a deadline** (`Submission.dfy`): submitter, worker, watchdog and bounded
  shutdown compete for one promise through a claim flag.
- **Deadline watchdog** (`Watchdog*.dfy`): an ordered deadline map with an index by claim flag,
  an atomic budget, a timer thread, a bounded executor queue and a retry path. The waits and
  notifications are laid over it in `WatchdogWakeups.dfy`.
- **Account and device store** (`Session*.dfy`): each repository call is one atomic
  read-modify-write of two records. Generations, revisions, login attempts and refresh claims
  are studied over arbitrary runs of calls.
- **Lyric gates and cache** (`Base64*.dfy`, `Utf8.dfy`, `LyricCache*.dfy`).
- **Retry budget** (`RetryBudget.dfy`), **diagnostic writer** (`Diagnostic*.dfy`), **hexadecimal
  to decimal** (`Decimal.dfy`, `HexDecimal.dfy`), **lyric timeline** (`LyricTimeline.dfy`,
  `WordTimes.dfy`, `WordStamps.dfy`), **file quarantine** (`Quarantine*.dfy`) and
  **percent-coding** (`PercentCoding.dfy`, `PercentText.dfy`).

A component that changes shared state has a value model (`Apply`, one case per atomic step), a
class whose methods update fields in place and are each tied to one step of that model, and
theorems about all runs of the model. An algorithm with loops is a method proved against a
specification of its own (`Numeral`, `IsText`, `Encodes`, `StablySorted`, ...).

A definition that model and code share is also measured from outside: against literal alphabets
(`Alphabets.dfy`) and numbers, or through the calls that read what another call wrote. Those
results are in `SchedulerJobs`, `WatchdogTiming`, `SessionEffects`, `SessionPatches`,
`DiagnosticCounts`, `LyricCacheHits`, `Base64Table`, `PercentText`, `WordStamps` and
`QuarantineRollback`.

`dafny verify dfyconfig.toml` checks everything.

Constants are those of the code: the queue holds four jobs a worker, images take half the
workers; the watchdog admits 256 entries and queues 64 actions; the cache holds 128 entries and
2 MiB, an entry 128 KiB; the diagnostic queue has 512 slots, 64 of them in reserve.

## Where the code does not keep a promise

The code is followed; each case has the exact condition.

- A draining shutdown leaves nothing behind, except when it is the clean-up of a restart that
  could start no thread: a job submitted meanwhile stays queued for the next restart, neither
  run nor rejected (`SchedulerDrain.DrainLeavesNothing`, `SchedulerDrain.JobCanBeStranded`).
- A lyric cache hit is the last Put for its key only if that Put was small enough: an oversized
  Put returns before it erases the entry it was to replace
  (`LyricCacheModel.OversizedPutLeavesOldValue`, `LyricCacheModel.LastPutIsAccepted`).
- The comment above `DeriveRequestTimeouts` has resolve, connect and send sum to at most the
  budget. With the 100 ms floors that is true exactly from 300 ms on
  (`RetryBudget.DeriveRequestTimeouts`).
- Admission of a retry is not a threshold: just above the reserve the slice is cut to almost
  nothing and the retry refused, with seconds left (`RetryBudget.AdmissionWindow`,
  `RetryBudget.MoreLeftIsRefused`).
- The search for a backup name looks at the main name only. A sidecar of an earlier quarantine
  under the chosen name can be lost: overwritten by a run that succeeds, or taken away by a
  rollback that then reports everything restored. A file can be lost exactly when the move of a
  piece onto its path can be reached and the file has other bytes than the piece, or a later
  piece is there whose move can fail (`QuarantineLoss.LosesExactlyAtRisk`, with
  `QuarantineLoss.SidecarNameIsNotChecked` and `QuarantineLoss.RestoredCanLoseASidecar`).
- `BeginRuntimeEpoch` raises the generation but keeps the refresh metadata of a readable user,
  a claim in flight or a cooldown. So a refresh is suppressed after it exactly when it was
  before (`SessionClaims.EpochSuppressesExactly`), and a claim in flight becomes a ticket of the
  new generation that nobody holds, exactly when a readable user's record held one
  (`SessionClaims.EpochCarriesClaim`); in the same process every refresh of that generation is
  then refused (`SessionClaims.OrphanBlocksRefresh`).
- Nobody settles a promise, which ends as a broken one, exactly when the watchdog is destroyed
  after it won the claim and before it queued the action (`Submission.NoPromiseForgotten`); an
  action that has reached the executor queue still runs.
- A word whose own time tag an offset has moved before -1 ms ends at 0 when no tag closes it,
  where any other open word lasts until the next one: the absent end, -1, is compared with its
  start. This is the second case of `WordStamps.Ends`, in `WordStamps.StampsAroundWords`.
- At generation 2^64-1 the next save falls back to the wall clock and the generation goes down
  (`SessionProofs.RaisesExactly`, `SessionProofs.ExhaustedGenerationFalls`).

## Model

| member | source | states |
|---|---|---|
| SchedulerTheorems.RunInv | native/async/RequestScheduler.cpp:35-207 | the scheduler's invariant holds in every state of every run |
| SchedulerTheorems.NoStrandedWork | native/async/RequestScheduler.cpp:45-48 | no lost wake-up: while a worker sleeps and queued work is eligible, a notification is owed or an awake thread is about to look; at rest the eligible jobs are covered one by one; with no shutdown only workers that are all busy leave eligible work alone |
| SchedulerTheorems.DrainNeverDeadlocks | native/async/RequestScheduler.cpp:132-142 | under shutdown some thread can act as long as one worker is left; if only sleepers remain with nothing owed, the queue is non-empty and all images |
| SchedulerTheorems.DrainEnds | native/async/RequestScheduler.cpp:132-142 | the drain ends: from a shutdown to the next restart the threads take no more steps than the work there was when it began, and one for each wake-up without a reason |
| SchedulerDrain.DrainLeavesNothing | native/async/RequestScheduler.cpp:132-142 | when a drain has joined its workers every accepted job has finished, been retired or rejected, exactly unless no worker was started since the last restart and a job is queued |
| SchedulerDrain.JobCanBeStranded | native/async/RequestScheduler.cpp:15-27 | a run in which a job accepted during a restart is left queued because the first thread fails to start |
| SchedulerTheorems.FateMoves | native/async/RequestScheduler.cpp:40-69 | a job moves only from queued to running, retired or rejected, and from running to finished |
| SchedulerTheorems.EndsOnce | native/async/RequestScheduler.cpp:104-121 | finished, retired and rejected are final over any run, and a running job can only finish |
| SchedulerTheorems.OnePlacePerJob | native/async/RequestScheduler.cpp:89-117 | every accepted job is in exactly the place its fate names, and starts at most once |
| SchedulerTheorems.StartsInOrder | native/async/RequestScheduler.cpp:54-56 | start order is submission order within images and within all other jobs |
| SchedulerTheorems.ImageLimits | native/async/RequestScheduler.cpp:41-68 | the image counter equals the workers running images and stays within half the workers, or one; at most four jobs a worker wait, and at most three images |
| SchedulerTheorems.RestartIsClean | native/async/RequestScheduler.cpp:195-207 | a thread starts only at an index without a live thread; after an abandoned worker a restart does nothing |
| SchedulerTheorems.BoundedShutdownStops | native/async/RequestScheduler.cpp:144-160 | in any run, every job a bounded shutdown finds queued stays rejected and cancelled, and every job it finds running is cancelled and can only finish |
| SchedulerTheorems.NothingStartsAfterStop | native/async/RequestScheduler.cpp:144-193 | in any run, from a bounded shutdown to the next restart the queue is empty and no job starts |
| SchedulerProofs.StepInv | native/async/RequestScheduler.cpp:35-207 | every step keeps the invariant |
| Scheduler.RequestScheduler.EnqueueJob | native/async/RequestScheduler.cpp:89-102 | admission: an expired job is dropped as accepted, a full queue, a shutdown or the image quota refuses, anything else is appended |
| Scheduler.RequestScheduler.WaitRegion | native/async/RequestScheduler.cpp:38-59 | a worker leaves, sleeps or takes the first eligible job, as the model's turn does |
| Scheduler.RequestScheduler.CompletionRegion | native/async/RequestScheduler.cpp:65-71 | a finished worker gives back its token and image slot, and broadcasts only for images |
| Scheduler.RequestScheduler.RetireExpiredJob | native/async/RequestScheduler.cpp:104-121 | the first job with the expired token leaves the queue, is handed back and is the only one whose fate changes; without one nothing happens |
| Scheduler.RequestScheduler.BeginShutdown | native/async/RequestScheduler.cpp:132-142 | the first draining shutdown sets the flag and owes a broadcast, a repeated one does nothing |
| Scheduler.RequestScheduler.BeginBoundedShutdown | native/async/RequestScheduler.cpp:144-160 | the first lock region of the bounded shutdown, with the jobs it hands back for rejection |
| Scheduler.RequestScheduler.JudgeWorker | native/async/RequestScheduler.cpp:171-187 | a worker that is done is joined, any other is counted as abandoned |
| Scheduler.RequestScheduler.BeginRestart | native/async/RequestScheduler.cpp:195-204 | when a restart resets the workers and when it refuses |
| Scheduler.FindEligible | native/async/RequestScheduler.cpp:54-54 | the scan finds the first eligible job |
| SchedulerJobs.StoredExactlyWithRoom | native/async/RequestScheduler.cpp:89-102 | a submission that has not expired is stored at the end of the queue exactly while the scheduler is open and fewer than four jobs a worker wait, three for an image; any other changes nothing |
| SchedulerJobs.TakesFirstThatFits | native/async/RequestScheduler.cpp:38-59 | a worker takes the first job that is no image or has image room, and removes only that one |
| SchedulerJobs.SleepsWhenNothingFits | native/async/RequestScheduler.cpp:45-53 | with nothing that fits it sleeps, and leaves exactly on a shutdown with an empty queue |
| SchedulerJobs.RetiresFirstWithToken | native/async/RequestScheduler.cpp:104-117 | an expiry removes the first job with its token, and only that job becomes retired |
| SchedulerJobs.RetiresNothingElse | native/async/RequestScheduler.cpp:114-114 | an expiry whose token no queued job carries changes nothing |
| SchedulerJobs.RunsWhatWasSubmitted | native/async/RequestScheduler.cpp:38-102 | over any run, what a worker takes or starts under a job's id is what was submitted, kind and token |
| SchedulerJobs.JudgesByDone | native/async/RequestScheduler.cpp:171-187 | a worker is joined exactly when its thread is done; any other is left behind and counted |
| SchedulerJobs.RetiredOnlyByItsToken | native/async/RequestScheduler.cpp:104-121 | over any run, an accepted job becomes retired only by the expiry of its own token |
| SchedulerJobs.AbandonedIsCounted | native/async/RequestScheduler.cpp:171-193 | over any run, a bounded shutdown reports exactly the workers it could not join |
| SchedulerJobs.CancelsOnlyWhatItFinds | native/async/RequestScheduler.cpp:150-155 | only the bounded shutdown sets cancellation flags, and only those of jobs it finds queued or running |
| SchedulerJobs.ShutdownCloses | native/async/RequestScheduler.cpp:132-160 | either shutdown closes an open scheduler and owes a broadcast; the draining one leaves queue, fates and flags alone; a repeated one does nothing |
| SchedulerJobs.RestartReopens | native/async/RequestScheduler.cpp:195-204 | a restart reopens exactly a closed scheduler that left no worker behind, and changes nothing otherwise |
| SchedulerJobs.FailedStartCloses | native/async/RequestScheduler.cpp:15-29 | a thread that cannot be started closes the scheduler, so that nothing more is accepted |
| SchedulerJobs.NothingAcceptedWhileClosed | native/async/RequestScheduler.cpp:92-92 | over any run, nothing is accepted from a shutdown to the next restart |
| LatestTokens.LiveTokenIsLatest | native/async/RequestScheduler.cpp:75-87 | over any run, a token not yet cancelled is the last its kind handed out and carries the kind's current generation |
| LatestTokens.GenerationsFollowTokens | native/async/RequestScheduler.cpp:80-82 | generation order is the order in which tokens were handed out |
| LatestTokens.NewTokenIsLive | native/async/RequestScheduler.cpp:75-87 | a new token is not cancelled, is its kind's current one and carries the next generation |
| LatestTokens.TokenLivesUntilReplaced | native/async/RequestScheduler.cpp:75-130 | over any run, a token is cancelled exactly when a newer request or a cancel of its kind follows, or somebody sets its own flag |
| LatestTokens.TokenTable.PrepareLatestToken | native/async/RequestScheduler.cpp:75-87 | a new token replaces and cancels the old one with the next generation; a kind out of range is refused |
| LatestTokens.TokenTable.Cancel | native/async/RequestScheduler.cpp:123-130 | cancelling sets the current flag, forgets it and moves the generation on |
| Submission.RunInv | native/include/echo/async/RequestScheduler.h:183-341 | in every reachable state at most one party owes the settlement, only after it won the claim, and a settled promise is owed by nobody |
| Submission.SettledAtMostOnce | native/include/echo/async/RequestScheduler.h:253-263 | whatever the order of events a promise is settled at most once |
| Submission.ResultIsFinal | native/include/echo/async/RequestScheduler.h:253-309 | a settled promise keeps its result for the rest of the run |
| Submission.NoPromiseForgotten | native/include/echo/async/RequestScheduler.h:322-340 | a submission at rest has a settled promise, except exactly when the run destroyed the watchdog after it had won the claim and before it queued the action |
| Submission.PromiseCanBeForgotten | native/include/echo/async/RequestScheduler.h:201-210 | a run that ends so |
| Submission.OpenPromiseMoves | native/include/echo/async/RequestScheduler.h:183-341 | while the promise is open some party can act |
| Submission.ExpiredNeverStarts | native/include/echo/async/RequestScheduler.h:226-249 | a job whose deadline fired before it started never starts |
| Submission.DeadlineWins | native/include/echo/async/RequestScheduler.h:253-309 | once the timer has won the claim nothing but the deadline is delivered, whatever the job returns |
| Submission.WinnerDecides | native/include/echo/async/RequestScheduler.h:226-340 | the first party to win the claim decides the result: from then on the promise is open or holds that party's answer, the job's own value, queue full, shut down or the deadline |
| Submission.ResultsHaveCauses | native/include/echo/async/RequestScheduler.h:183-341 | every result was brought about by its own event: a job's value by that job's return after it was stored, queue full by a refused store, shut down by a shutdown that took the job, the deadline by an armed timer's claim, overload by a refused arm |
| WatchdogProofs.BudgetConserved | native/async/RequestWatchdog.cpp:49-88 | in every reachable state the budget is the sum of its seven places, never more than the cap, and no release wraps around |
| WatchdogProofs.QueuedAtMostOnce | native/async/RequestWatchdog.cpp:180-212 | of all entries under one claim flag at most one is ever queued, after its flag was won and not before it was due |
| WatchdogProofs.EntriesAreDistinct | native/async/RequestWatchdog.cpp:49-88 | in every reachable state an id names one entry: under one key of the map, or in the timer's hand, or queued once |
| WatchdogProofs.OwnedLeavesOnlyBy | native/async/RequestWatchdog.cpp:209-229 | an entry that won its claim and met a full queue stays owned until delivery, Cancel or the destructor |
| WatchdogProofs.OwnedIsNeverLost | native/async/RequestWatchdog.cpp:209-229 | over any run such an entry is still owned, has been queued, was taken by Cancel, or the watchdog was stopped |
| WatchdogProofs.ArmedLeavesOnlyBy | native/async/RequestWatchdog.cpp:155-229 | any armed entry leaves only by delivery, Cancel, the destructor, or because its flag was already true and not won for it |
| WatchdogProofs.InTimer | native/async/RequestWatchdog.cpp:180-229 | what each step can do to the entry in the timer's hand: keep it, deliver it, drop it or put it back |
| WatchdogTiming.ReservesBelow256 | native/async/RequestWatchdog.cpp:59-66 | a reservation takes one unit exactly while fewer than 256 are pending |
| WatchdogTiming.ArmsForTheTimeout | native/async/RequestWatchdog.cpp:68-82 | exactly one entry is added, due and keyed at now plus the timeout asked for, with the flag and not owned |
| WatchdogTiming.PopsEarliest | native/async/RequestWatchdog.cpp:167-176 | the timer takes only what is due, earliest deadline first and among equals the one armed first |
| WatchdogTiming.ClaimsFreeFlag | native/async/RequestWatchdog.cpp:180-195 | the timer wins a free flag by setting it, keeps a flag it owns and yields any other |
| WatchdogTiming.DeliversBelow64 | native/async/RequestWatchdog.cpp:201-212 | a won entry is queued exactly while the executors are open and fewer than 64 actions wait |
| WatchdogTiming.RetriesInTen | native/async/RequestWatchdog.cpp:214-229 | a refused entry comes back ten milliseconds later, owned, with its id, flag and due time |
| WatchdogTiming.NeverEarly | native/async/RequestWatchdog.cpp:49-212 | over any run, what was armed with a timeout is queued under its own flag and never before the timeout has passed since the arm |
| WatchdogTiming.CancelledNeverFires | native/async/RequestWatchdog.cpp:103-116 | over any run, an action whose entry a Cancel took out of the map is never queued |
| WatchdogTiming.TakenInDeliveryOrder | native/async/RequestWatchdog.cpp:232-240 | over any run, the n-th action an executor takes is the n-th that was delivered |
| WatchdogProofs.RunInv | native/async/RequestWatchdog.cpp:49-248 | the watchdog's invariant holds in every state of every run |
| WatchdogWakeups.WiredRunInv | native/async/RequestWatchdog.cpp:155-248 | with every wait and notification added, the invariants hold in every reachable state |
| WatchdogWakeups.DueEntryWakesTimer | native/async/RequestWatchdog.cpp:160-173 | no lost wake-up of the timer: while an entry is due or the watchdog stops, the timer is up, has slept its time, or a notification is owed |
| WatchdogWakeups.QueuedActionWakesExecutor | native/async/RequestWatchdog.cpp:232-248 | no lost wake-up of the executors: beside a sleeping one every queued action has an awake executor or an owed notification, and a stop owes a broadcast |
| Watchdog.IndexedAdd | native/async/RequestWatchdog.cpp:25-34 | inserting keeps exactly one index node for each map node, under its claim flag |
| Watchdog.IndexedDrop | native/async/RequestWatchdog.cpp:36-47 | extracting removes exactly the node of the extracted entry |
| Watchdog.RequestWatchdog.Arm | native/async/RequestWatchdog.cpp:49-88 | an arm that succeeds adds exactly one entry, due at the clock plus the timeout under the caller's flag, and takes one unit; one that is refused or fails leaves map and budget as they were; which happens when |
| Watchdog.RequestWatchdog.CancelEntry | native/async/RequestWatchdog.cpp:103-111 | Cancel finds an entry exactly when one is armed under the flag, and takes it out |
| Watchdog.RequestWatchdog.SwapOut | native/async/RequestWatchdog.cpp:118-126 | the destructor takes the whole map and clears the index |
| Watchdog.RequestWatchdog.Pop | native/async/RequestWatchdog.cpp:167-176 | the timer takes the earliest due entry |
| Watchdog.RequestWatchdog.Arbitrate | native/async/RequestWatchdog.cpp:180-195 | an owned entry has won; a fresh one wins exactly if its flag was false, which it sets |
| Watchdog.RequestWatchdog.Deliver | native/async/RequestWatchdog.cpp:201-212 | delivery into the bounded queue, or refusal when it is full or stopped |
| Watchdog.RequestWatchdog.Retry | native/async/RequestWatchdog.cpp:214-229 | a refused entry is re-armed as owned with a delay, or released when stopping |
| SessionProofs.RaisesExactly | native/storage/SessionRepository.cpp:161-172 | the next generation is greater exactly when the current one is below 2^64-1 |
| SessionProofs.RunOnward | native/storage/SessionRepository.cpp:394-448 | over any run generations never go back, and within one generation the user never changes |
| SessionProofs.StepOnward | native/storage/SessionRepository.cpp:394-448 | every call keeps that, and Save, Clear, ClearWithDevice, BeginRuntimeEpoch and a successful login commit raise the generation |
| SessionProofs.AcceptedPatchHitsCapturedAccount | native/storage/SessionRepository.cpp:362-388 | an accepted late patch lands on the account its request captured |
| SessionProofs.StalePatchIsRefused | native/storage/SessionRepository.cpp:362-388 | once a call has ended the captured generation, the patch is refused and changes nothing |
| SessionProofs.ExhaustedGenerationFalls | native/storage/SessionRepository.cpp:161-172 | at generation 2^64-1 a save makes the generation smaller |
| SessionProofs.DeviceStep | native/storage/IdentityCodec.cpp:108-120 | a call leaves the device alone or stamps it with the next revision; an applied commit expected exactly the revision it found |
| SessionProofs.OneCommitPerRevision | native/storage/SessionRepository.cpp:541-559 | of all commits that expect one device revision at most one is applied |
| SessionClaims.NoCommitAfterOvertaken | native/storage/SessionRepository.cpp:594-621 | a login key never commits after its attempt was superseded, cancelled or overtaken |
| SessionClaims.KeyCommitsOnce | native/storage/SessionRepository.cpp:594-621 | a login key commits at most once |
| SessionClaims.OneTicketAtATime | native/storage/SessionRepository.cpp:623-678 | within a process epoch at most one refresh ticket per generation is outstanding |
| SessionClaims.FinishOnlyOwnClaim | native/storage/SessionRepository.cpp:680-731 | Finish acts exactly for the ticket whose claim is stored, and on nothing but the claim |
| SessionClaims.CooldownWindow | native/storage/SessionRepository.cpp:232-255 | after Finish at c >= 0 a claim at now >= 0 is suppressed exactly when c <= now < c + 30000, with the window pulled back at the end of the clock and none for c < 0: a clock that runs back cannot suppress for ever |
| SessionClaims.EpochCarriesExactly | native/storage/SessionRepository.cpp:394-406 | a new runtime epoch keeps the refresh metadata of a readable user, claim or cooldown, and drops any other |
| SessionClaims.EpochSuppressesExactly | native/storage/SessionRepository.cpp:394-406 | after the epoch a refresh is suppressed exactly when the record held a readable user and metadata that suppressed it before |
| SessionClaims.EpochKeepsVerdict | native/storage/SessionRepository.cpp:394-406 | the next claim gets the answer it would have got before the epoch |
| SessionClaims.EpochCarriesClaim | native/storage/SessionRepository.cpp:394-406 | the record reserves a ticket of the new generation exactly when a readable user's record held that claim in flight |
| SessionClaims.OrphanBlocksRefresh | native/storage/SessionRepository.cpp:394-406 | a ticket so reserved blocks every refresh of its generation in the same process |
| SessionEffects.SaveThenLoad | native/storage/SessionRepository.cpp:408-426 | what a save stores is what every later load returns, under the next generation, or the wall clock where there is none; login key, attempt and refresh claim are gone, the device stays |
| SessionEffects.ClearThenLoad | native/storage/SessionRepository.cpp:428-439 | after a logout every load finds nobody, under the next generation |
| SessionEffects.ClearWithDeviceThenLoad | native/storage/SessionRepository.cpp:441-448 | the same, with the device emptied under the next revision, or nothing at all once the revisions are used up |
| SessionEffects.LegacyLoads | native/storage/SessionRepository.cpp:263-289 | a record older than the envelope is read once as it was, encrypted as generation 1 with its login attempt kept, and never again as plain text |
| SessionEffects.EpochKeepsLogin | native/storage/SessionRepository.cpp:394-406 | a new runtime epoch keeps the login under the next generation, ends its login attempt and stamps the device unchanged |
| SessionEffects.CommitsExactly | native/storage/SessionRepository.cpp:594-621 | a login commits exactly when its key stands, generation and device revision are current and the caller still wants it; otherwise the store is unchanged |
| SessionEffects.CommitThenLoad | native/storage/SessionRepository.cpp:612-619 | after a commit every load returns exactly the session it carried, under the next generation, with no attempt left and the new device stamped, or the old one unchanged |
| SessionEffects.PublishedKeyCommits | native/storage/SessionRepository.cpp:513-621 | over any run, a key that was published and not overtaken, cleared or replaced commits when its caller still wants it |
| SessionEffects.PublishesExactly | native/storage/SessionRepository.cpp:525-539 | a key is published exactly by the attempt in the record, for the versions it was obtained under; login, refresh and device stay |
| SessionEffects.BeginsAttempt | native/storage/SessionRepository.cpp:513-523 | a new attempt stands alone, without a key, and leaves the login and its refresh claim |
| SessionEffects.CancelsOwnAttempt | native/storage/SessionRepository.cpp:569-578 | only the attempt in the record is cancelled, with its key; any other call changes nothing |
| SessionEffects.ClearsOwnKey | native/storage/SessionRepository.cpp:580-592 | a key is cleared by its own name or by none, and nothing goes with it |
| SessionEffects.SetsKey | native/storage/SessionRepository.cpp:497-511 | a key that is not empty replaces the one in the record, and nothing else changes |
| SessionPatches.PatchesExactly | native/storage/SessionRepository.cpp:362-388 | a patch of a standing login is applied exactly for its generation, with credentials for its device revision, and when permitted; later loads return it field by field, blanks in a profile changing nothing |
| SessionPatches.PatchesGenerationExactly | native/storage/SessionRepository.cpp:450-495 | a patch by a function is applied exactly for the login's generation, and later loads return its value |
| SessionPatches.NobodyIsPatched | native/storage/SessionRepository.cpp:362-388 | with nobody logged in patches and refresh claims are refused and change nothing |
| SessionPatches.ReplacesExactly | native/storage/SessionRepository.cpp:541-559 | the answers of a conditional device write in their order; an applied one makes the device of record the replacement, under the next revision, and leaves the account |
| SessionPatches.RegistersExactly | native/storage/SessionRepository.cpp:338-360 | a registration changes the id and the mark of the device of record and nothing else of it |
| SessionPatches.DeviceWriteKeepsLogin | native/storage/SessionRepository.cpp:338-360 | every load returns the same login after a device write |
| SessionPatches.SavesDevice | native/storage/DeviceRepository.cpp:33-39 | the unconditional device writes, and the revision that runs out |
| SessionPatches.CaptureReports | native/storage/SessionRepository.cpp:298-336 | a capture reports the account a load returns and the device of record, after it has stored the initial device where there was none or another one |
| SessionPatches.CaptureRepairs | native/storage/SessionRepository.cpp:305-318 | a record whose generation cannot be read becomes nobody's, under the generation reported |
| SessionPatches.ClaimsExactly | native/storage/SessionRepository.cpp:623-678 | a refresh claim on a standing login is granted exactly for its generation, without a VIP token and unsuppressed; it hands out that login and stores that claim |
| SessionPatches.RefreshesAgain | native/storage/SessionRepository.cpp:623-731 | after a claim and its end at c, the next claim is granted exactly outside c <= now < c + 30000 |
| Session.CallKeeps | native/storage/SessionRepository.cpp:263-731 | every call, from a readable record with generations left, keeps the generation from going back and the user within it, and raises it when it ends it |
| Session.SessionRepository.LoadSnapshot | native/storage/SessionRepository.cpp:263-289 | reading, and the one-time encryption of a legacy record |
| Session.SessionRepository.BeginRuntimeEpoch | native/storage/SessionRepository.cpp:394-406 | a new epoch raises the generation, forgets login key and attempt and stamps the device |
| Session.SessionRepository.Save | native/storage/SessionRepository.cpp:408-426 | a login replaces the record under the next generation |
| Session.SessionRepository.PatchIdentity | native/storage/SessionRepository.cpp:362-388 | a patch is applied only to the expected account and, with credentials, the expected device |
| Session.SessionRepository.CommitRegistration | native/storage/SessionRepository.cpp:338-360 | registration against the expected account and revision, with every refusal in its order |
| Session.SessionRepository.ReplaceDevice | native/storage/SessionRepository.cpp:541-559 | replacement against the expected account and revision |
| Session.SessionRepository.PublishLoginKey | native/storage/SessionRepository.cpp:525-539 | a key is published only for the attempt in the record |
| Session.SessionRepository.CommitLoginAttempt | native/storage/SessionRepository.cpp:594-621 | a login commits only with the expected generation and the key in the record |
| Session.SessionRepository.TryClaimLazyVipRefresh | native/storage/SessionRepository.cpp:623-678 | when a refresh may be claimed, and the claim it stores |
| Session.IsSuppressed | native/storage/SessionRepository.cpp:210-240 | metadata suppress only the process that claimed, or inside the cooldown, and all instants a cooldown suppresses lie within 30000 ms of one another, on any clock |
| Base64.DecodeBase64 | native/core/LyricService.cpp:46-64 | with 32-bit wrap-around the decoder returns the bytes that the digits before the first '=' stand for |
| Base64.ValidBase64 | native/core/LyricService.cpp:66-85 | the validator's counters decide what reading the whole text decides |
| Base64.EncodingPasses | native/core/LyricService.cpp:46-85 | every padded or unpadded encoding of a non-empty byte string passes and decodes to it |
| Base64.PassingIsEncoding | native/core/LyricService.cpp:66-85 | whatever passes re-encodes to itself, white space dropped and padding written or left off |
| Base64.PassesExactlyEncodings | native/core/LyricService.cpp:66-85 | a text passes exactly when it encodes some non-empty byte string |
| Base64Table.LetterIsTable | native/core/LyricService.cpp:37-44 | every 6-bit group is spelt by the character in its place of the alphabet |
| Base64Table.ValueIsPlace | native/core/LyricService.cpp:37-44 | the decoder reads exactly the alphabet's characters, each as its place |
| Base64Table.GroupsSpellBytes | native/core/LyricService.cpp:46-64 | three bytes and their four groups are the same number; shorter ends are shifted up to whole groups |
| Base64Table.EncodingIs | native/core/LyricService.cpp:66-85 | an encoded text is the alphabet's characters for its groups and one or two "=" that complete the block |
| Base64Table.StripsSpaces | native/core/LyricService.cpp:66-85 | the gate ignores white space wherever it stands, and nothing else |
| Utf8.ValidUtf8 | native/core/LyricService.cpp:87-105 | true exactly on the UTF-8 encodings of scalar values without controls other than tab, LF and CR and without DEL |
| Utf8.AcceptsExactlyTexts | native/core/LyricService.cpp:87-105 | the grammar of well-formed bytes accepts exactly those encodings |
| Utf8.EncodingHoldsBits | native/core/LyricService.cpp:87-105 | the bits of an encoding are the code point, in the fewest bytes that hold it |
| LyricCacheModel.RunInv | native/core/LyricService.cpp:305-309 | both budgets and distinct ages hold after any run of operations |
| LyricCacheModel.EvictionIsMinimal | native/core/LyricService.cpp:350-355 | eviction ends with room, evicts only entries older than every survivor, and keeps whole every youngest-first selection that fits |
| LyricCacheModel.HitIsLastAcceptedPut | native/core/LyricService.cpp:324-339 | a hit is what the last accepted Put for the key stored, marked as a hit, and it has not expired |
| LyricCacheModel.LastPutIsAccepted | native/core/LyricService.cpp:340-347 | the last Put for a key is its last accepted one exactly when it was not oversized |
| LyricCacheModel.OversizedPutLeavesOldValue | native/core/LyricService.cpp:347-347 | a run in which a hit is not the last Put |
| LyricCacheModel.RejectedPairStaysAway | native/core/LyricService.cpp:362-381 | after a rejection no search answer lists the pair until one that lists it is stored anew |
| LyricCacheModel.InvalidateTouchesOnlyListing | native/core/LyricService.cpp:362-381 | a rejection changes the answer for a key exactly when that is a search entry listing the pair |
| LyricCacheModel.DetailKeysInjective | native/core/LyricService.cpp:217-219 | different pairs have different detail keys, none of which is a search key |
| LyricCacheModel.SearchKeysAreSearch | native/core/LyricService.cpp:210-219 | search keys carry the search prefix and equal no detail key |
| LyricCacheHits.AcceptedPutIsServed | native/core/LyricService.cpp:324-361 | a result of at most 128 KiB is served, marked as a hit that took no time and no request, from its Put until it expires; a larger one changes nothing |
| LyricCacheHits.GetKeepsAnswers | native/core/LyricService.cpp:324-339 | a lookup leaves every answer as it was |
| LyricCacheHits.PutKeepsOthers | native/core/LyricService.cpp:340-361 | while there is room, a Put leaves every other answer as it was |
| LyricCacheHits.BudgetsHold | native/core/LyricService.cpp:305-309 | after any run the cache holds at most 128 results, of 128 KiB each and 2 MiB in all |
| LyricCacheHits.AgesFollowUses | native/core/LyricService.cpp:324-361 | over any run, ages are the order in which keys were last stored or looked up |
| LyricCacheHits.EvictsLeastRecentlyUsed | native/core/LyricService.cpp:350-355 | over any run, a Put evicts only results used less recently than every one it keeps |
| LyricCacheHits.SearchKeyIgnoresCase | native/core/LyricService.cpp:210-216 | two hashes share a search key exactly when they differ in the case of letters at most |
| LyricCacheStore.LyricCache.Get | native/core/LyricService.cpp:324-339 | a lookup prunes, answers with the diagnostics rewritten and makes the entry the youngest |
| LyricCacheStore.LyricCache.Put | native/core/LyricService.cpp:340-361 | a store adds up its cost, prunes, replaces, evicts and adds as the model does, the byte counter staying the sum of costs |
| LyricCacheStore.LyricCache.InvalidateSearch | native/core/LyricService.cpp:362-381 | the walk erases exactly the search entries that list the pair |
| LyricCacheStore.LyricCache.FindOldest | native/core/LyricService.cpp:351-353 | the least recently used entry, in whatever order the map is walked |
| RetryBudget.SingleAttemptCap | native/core/HttpClient.cpp:807-818 | the reserve loop adds up the pauses before the last attempt; the slice is what is left above the reserve, or all of it |
| RetryBudget.SliceWithinLeft | native/core/HttpClient.cpp:807-818 | a slice is never more than what is left, and never empty while something is |
| RetryBudget.LaterAttemptsFunded | native/core/HttpClient.cpp:794-818 | once a slice was cut, every later attempt is left 1500 ms of its own, exactly that if the slices were used up, for any number of attempts and any pauses |
| RetryBudget.AdmissionWindow | native/core/HttpClient.cpp:803-818 | with exactly which remainders a retry is admitted |
| RetryBudget.MoreLeftIsRefused | native/core/HttpClient.cpp:803-818 | a second attempt is admitted with 3500 ms left and refused with 4000 ms |
| RetryBudget.AmpleBudget | native/core/HttpClient.cpp:864-930 | with more than 5500 ms for three attempts, the second and the third are left at least 1500 ms each however the earlier ones spend their slices |
| RetryBudget.FirstShare | native/core/HttpClient.cpp:856-885 | of a budget above 5500 ms the first of three attempts is given all but 5500 ms, otherwise all of it |
| RetryBudget.ThreeAttempts | native/core/HttpClient.cpp:864-936 | with more than 5500 ms, transient failures and the scheduled pauses, three attempts are made |
| RetryBudget.Attempts | native/core/HttpClient.cpp:864-936 | the loop spends at most the total and one delay when attempts keep to their slices, retries only transient failures, gives a retry at least 1000 ms, and reports exhaustion after a retry was admitted only if the pause was off schedule |
| RetryBudget.Get | native/core/HttpClient.cpp:839-936 | the first attempt is given exactly the requested or default nine seconds, bounded by what the route has left, less 5500 ms when there may be retries and more is there; time spent stays within that; above 5500 ms three transient failures are all tried; no attempt when the watchdog takes no deadline |
| RetryBudget.DeriveRequestTimeouts | native/core/HttpClient.cpp:748-772 | from 400 ms on resolve, connect and send are a quarter of the total within their caps, below that 100 ms each; they fit the total exactly when it is at least 300 ms |
| DiagnosticModel.RunInv | desktop/qt/src/core/DiagnosticWriter.cpp:24-115 | accepted = written + failed + queued + in flight, completed = records through the sink, acceptance order, and the reserve, in every state of every run |
| DiagnosticModel.FlushWaitsForAll | desktop/qt/src/core/DiagnosticWriter.cpp:49-52 | a flush returns only after everything accepted before it has been through the sink |
| DiagnosticModel.FlushIsNeverStranded | desktop/qt/src/core/DiagnosticWriter.cpp:49-58 | while a flush waits, the worker is awake or busy |
| DiagnosticFlush.SleepingFlushIsOwed | desktop/qt/src/core/DiagnosticWriter.cpp:49-52 | no flush is slept through: a sleeping caller whose records are complete is owed a broadcast, any other waits for a worker that can act |
| DiagnosticFlush.ReturnedFlushIsSettled | desktop/qt/src/core/DiagnosticWriter.cpp:49-52 | when a flush returns, every record accepted before it began has been through the sink |
| DiagnosticModel.ShutdownDrains | desktop/qt/src/core/DiagnosticWriter.cpp:53-58 | a worker that is gone has left nothing behind |
| DiagnosticModel.CriticalYieldsOnlyToCritical | desktop/qt/src/core/DiagnosticWriter.cpp:33-38 | an open writer refuses a well-formed critical record only while at least 64 critical ones wait |
| DiagnosticModel.LossesBecomeVisible | desktop/qt/src/core/DiagnosticWriter.cpp:94-109 | after any written record the last note written says exactly how many records had been lost when it was taken |
| DiagnosticCounts.TakenExactly | desktop/qt/src/core/DiagnosticWriter.cpp:24-45 | a record is taken exactly when it is well formed, at most 16128 bytes, the writer open, storage available and fewer than 512 records wait, 448 unless it is critical; it goes last, as it is |
| DiagnosticCounts.TakesOldest | desktop/qt/src/core/DiagnosticWriter.cpp:84-93 | the worker takes the oldest record, with the losses as they stand |
| DiagnosticCounts.DroppedAreCounted | desktop/qt/src/core/DiagnosticWriter.cpp:33-45 | over any run the two loss counters are the numbers of records, and of critical ones, refused |
| DiagnosticCounts.LinesAreCounted | desktop/qt/src/core/DiagnosticWriter.cpp:94-113 | over any run the written and failed counters are the lines the sink wrote and did not write, and one failure for a worker that never started |
| DiagnosticCounts.PeakIsReached | desktop/qt/src/core/DiagnosticWriter.cpp:40-43 | the peak is the greatest length the queue has had |
| DiagnosticCounts.NotesAreNews | desktop/qt/src/core/DiagnosticWriter.cpp:94-109 | over any run a line carries a note exactly when the losses it saw differ from those last written |
| DiagnosticWriterClass.DiagnosticWriter.Enqueue | desktop/qt/src/core/DiagnosticWriter.cpp:24-45 | which records are taken, and the counts of those that are not |
| DiagnosticWriterClass.DiagnosticWriter.TakeRegion | desktop/qt/src/core/DiagnosticWriter.cpp:84-93 | the worker takes the front, sleeps, or leaves when stopping with an empty queue |
| DiagnosticWriterClass.DiagnosticWriter.CompleteRegion | desktop/qt/src/core/DiagnosticWriter.cpp:94-113 | the sink's verdict is counted, losses noted, the record completed |
| DiagnosticWriterClass.DiagnosticWriter.FlushDone | desktop/qt/src/core/DiagnosticWriter.cpp:49-52 | the wait condition of a flush implies that all it waits for is settled |
| HexDecimal.HexStringToDecimalString | native/core/Crypto.cpp:318-362 | for every text the canonical decimal numeral of the number its hex digits spell |
| HexDecimal.TimesSixteen | native/core/Crypto.cpp:331-341 | the first carry loop multiplies by sixteen and keeps digits in 0..9 without a leading zero |
| HexDecimal.AddNibble | native/core/Crypto.cpp:343-354 | the second carry loop, which may stop early, adds the digit |
| HexDecimal.ReadsDigit | native/core/Crypto.cpp:320-330 | a further hex digit of either case shifts the number by one place |
| HexDecimal.SkipsOthers | native/core/Crypto.cpp:328-329 | any other character counts for nothing |
| HexDecimal.HexRoundTrip | native/core/Crypto.cpp:318-362 | reading undoes writing in hexadecimal notation, in lower and upper case, for every number |
| HexDecimal.OnlyDigitsMatter | native/core/Crypto.cpp:318-330 | the number of a text is that of its hex digits alone |
| HexDecimal.DecimalOfDigest | native/core/Crypto.cpp:364-368 | the device id of a digest of any width that spells n is n in decimal notation |
| Decimal.ValInjective | native/core/Crypto.cpp:314-318 | a number has one canonical digit string |
| Decimal.NumeralInjective | native/core/LyricService.cpp:217-219 | different numbers print differently, and numerals are made of digits |
| Decimal.NumeralIsDecimal | native/core/Crypto.cpp:356-361 | a numeral is the number in decimal notation |
| LyricTimeline.StableSort | desktop/qt/src/lyrics/LyricTimeline.cpp:58-58 | sorted by time, the cues of each time in their old order |
| LyricTimeline.StableSortIsUnique | desktop/qt/src/lyrics/LyricTimeline.cpp:58-58 | the contract of the stable sort determines its result |
| LyricTimeline.SortedTimesAreUnique | native/core/LyricParser.cpp:106-108 | an unstable sort still determines the times, hence the active index |
| LyricTimeline.ParseBilingual | desktop/qt/src/lyrics/LyricTimeline.cpp:61-75 | merged times strictly increase, the set of (time, text) pairs is kept, no text is listed twice and the first cue of a time leads |
| LyricTimeline.SplitAppend | desktop/qt/src/lyrics/LyricTimeline.cpp:67-71 | a translation joined behind a line break is read back as one more line |
| LyricTimeline.FindActiveLyricLine | native/core/LyricParser.cpp:112-121 | the linear walk finds the last line of the longest prefix whose time has come |
| LyricTimeline.IndexAt | desktop/qt/src/lyrics/LyricTimeline.cpp:76-80 | the binary search finds the active line of sorted cues |
| LyricTimeline.ActiveIsUnique | desktop/qt/src/lyrics/LyricTimeline.cpp:76-80 | only one line is active, so both searches agree on sorted cues |
| WordTimes.WordTimes | desktop/qt/src/lyrics/LyricTimeline.cpp:9-35 | word spans are increasing and disjoint and cut exactly the trimmed text between tags out of the trimmed line; no word ends before it starts |
| WordTimes.WordCuts | desktop/qt/src/lyrics/LyricTimeline.cpp:17-25 | the span computed from the cursor lies in the displayed line and cuts out the trimmed segment |
| WordTimes.FillEnds | desktop/qt/src/lyrics/LyricTimeline.cpp:32-33 | an open word ends where the next begins, if that is later |
| WordStamps.SourcesAre | desktop/qt/src/lyrics/LyricTimeline.cpp:19-25 | words come from the segments with anything but white space in them, each once and in order |
| WordStamps.StampsAroundWords | desktop/qt/src/lyrics/LyricTimeline.cpp:9-35 | every word begins at the stamp in front of it, or with the line, and ends at a later closing stamp, else at 0 when its own stamp lies before -1, else where the next later word begins |
| Quarantine.QuarantinePathFor | native/storage/Database.cpp:48-61 | the search ends, with the first backup name that nothing is stored under |
| Quarantine.QuarantineKeepsPromise | native/storage/Database.cpp:75-119 | whatever renames fail, in the rollback too, with free backup names every piece is at exactly its live or its backup path, nothing else changes, and the outcome says which |
| Quarantine.QuarantineWithSidecars | native/storage/Database.cpp:75-119 | the loop with its rollback does what the runs above do |
| Quarantine.Rollback | native/storage/Database.cpp:97-104 | every moved piece goes home or is listed where it is stuck |
| Quarantine.OpenAfterQuarantine | native/storage/Database.cpp:524-550 | the next open refuses exactly when the main file is stuck at its backup path, and can create a new one exactly after success |
| Quarantine.RestoredIsUnchanged | native/storage/Database.cpp:113-115 | the "restored in place" error is true |
| Quarantine.OrphanPaths | native/storage/Database.cpp:532-550 | the check lists exactly the sidecars that are there, and only beside a missing or empty main file |
| QuarantineRollback.BackupNameIs | native/storage/Database.cpp:48-61 | the backup name, spelt out with both numbers in decimal notation |
| QuarantineRollback.SuccessMovesEveryPiece | native/storage/Database.cpp:75-119 | after a success the database, its write-ahead log and its shared memory are each at the backup name with their own suffix, bytes kept, and gone from the live one |
| QuarantineRollback.RollbackSucceeds | native/storage/Database.cpp:97-104 | rolling back takes every piece home when none of its own renames is refused |
| QuarantineRollback.OneRefusalIsUndone | native/storage/Database.cpp:88-115 | when one sidecar's rename is refused and no other, everything is put back and the file system is as it was |
| QuarantineLoss.SafeWhenFree | native/storage/Database.cpp:75-119 | with free backup names no other file is touched, whatever the outcome |
| QuarantineLoss.LosesExactlyAtRisk | native/storage/Database.cpp:48-119 | some pattern of renames loses a file that is no part of the database exactly when a file under a backup name can be replaced and has other bytes than the piece or a later piece is there |
| QuarantineLoss.SafeExactlyWhenFree | native/storage/Database.cpp:75-119 | a quarantine that succeeds keeps every other file exactly when no backup name was taken by a file with other bytes |
| QuarantineLoss.RestoredCanLoseASidecar | native/storage/Database.cpp:92-115 | a file system in which the outcome is "restored in place" and an earlier sidecar is gone |
| QuarantineLoss.SidecarNameIsNotChecked | native/storage/Database.cpp:48-61 | a file system in which the chosen name overwrites an earlier sidecar |
| PercentCoding.UrlEncode | native/core/StringUtils.cpp:8-20 | the encoding of every byte in turn |
| PercentCoding.UrlDecode | native/core/HttpUtils.cpp:10-27 | the decoding, malformed escapes included, as strtol reads them |
| PercentCoding.DecodeUndoesEncode | native/core/HttpUtils.cpp:10-27 | decoding undoes encoding on every byte string |
| PercentCoding.EncodedAlphabet | native/core/StringUtils.cpp:8-20 | encoded text holds unreserved characters and percent signs only |
| PercentCoding.ParseQuery | native/core/HttpUtils.cpp:46-59 | the loop over `&`-separated parts |
| PercentCoding.ParsePrintedMap | native/core/HttpUtils.cpp:46-59 | parsing a printed map, its pairs in any order, adds exactly that map |
| PercentText.UnreservedIs | native/core/StringUtils.cpp:8-20 | the bytes left alone are exactly the letters, digits and marks of section 2.3 of RFC 3986 |
| PercentText.EncodesByte | native/core/StringUtils.cpp:8-20 | any other byte becomes a percent sign and its two hex digits, high one first, in capitals |
| PercentText.EncodesPieces | native/core/StringUtils.cpp:8-20 | encoding works byte by byte, wherever the text is cut |
| PercentText.EveryEscapeDecodes | native/core/HttpUtils.cpp:10-27 | whatever way a text was escaped, in either case, decoding gives the bytes it stands for |
| PercentText.ReadsAsStrtol | native/core/HttpUtils.cpp:14-19 | the two bytes after a percent sign are read as strtol in base 16 reads a string, digits or not |
| PercentText.ParsesPair | native/core/HttpUtils.cpp:46-59 | a part with an equals sign sets what is before the first one to what is behind it |
| PercentText.ParsesBareKey | native/core/HttpUtils.cpp:53-55 | a part without one is a key with nothing behind it |
| PercentText.SkipsEmptyPart | native/core/HttpUtils.cpp:53-55 | empty parts, and an empty query, set nothing |
| PercentText.ParsesLeftToRight | native/core/HttpUtils.cpp:46-59 | parts are taken from left to right, so that the last one of a key stands |

## Left out

- WinHTTP, TLS, URL cracking, hashing and DPAPI encryption: foreign calls; a sealed record either opens for the current user or does not.
- SQLite, its schema and the statistics queries: `UpdateJsonPair` and `UpdateJson` are taken as atomic read-modify-writes that leave the store alone on a throw.
- JSON text: records, candidates and diagnostics are taken as already parsed values; a device record whose revision is malformed (which makes every device call throw) is not modelled.
- Regular expressions in lyrics: the positions of matches are inputs, and so are the parsed time stamps and offsets.
- Real time: clocks are parameters that move forward, and no step is promised to happen by a given moment.
- KuGou services, Qt controllers, the updater, crash capture and the probes: request plumbing and user interface.
- Submissions without a deadline and detached ones, whose promise has one owner at a time.
- The watchdog's statistics counter and module pinning, and an insertion that runs out of memory in the timer's retry (a failure in Arm is modelled).
- Watchdog.RequestWatchdog.Arm: stated for a call nobody interrupts; its admission and its lock region are separate steps of the model.
- The reject callbacks that run after a bounded shutdown, and the bodies of jobs and deadline actions: any of them may take any number of other steps meanwhile.
- 64-bit wrap-around of the cache's use counter, of kind generations, job numbers and record sequences; 32-bit `long` arithmetic in the retry budget.
- LyricCacheStore.LyricCache.Put: the capacities of the strings and the size of the entry structure are inputs, because they depend on the standard library; the sum is the code's.
- SessionProofs.RunOnward: runs start from a readable record and stay below generation 2^64-1; recovery of an unreadable generation by wall clock is in the model but not in the claim.
- SessionClaims.NoCommitAfterOvertaken: attempt ids are fresh and the key is published only by `PublishLoginKey`, as the login flow does; `SetActiveLoginKey` bypasses attempts.
- Quarantine.QuarantineWithSidecars: files and directories are leaves of a flat map; a rename onto a plain file replaces it, as the comment in the source says of this environment.
- LyricTimeline.ParseBilingual: cues are as `parse` leaves them, each one non-empty line with no translation yet.
- RetryBudget.Get: URL cracking before the loop and the request itself are not modelled; whether the watchdog admits the deadline is an input.
- DiagnosticModel.RunInv: the contents of records and the file rotation of the sink are not modelled; the sink answers arbitrarily.
