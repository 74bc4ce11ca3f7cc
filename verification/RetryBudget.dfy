/**
 How a request shares one time budget among its attempts and the pauses between them.
 Times are milliseconds; the clock and the outcome of every attempt are inputs.
 */
module RetryBudget {
  import opened Wrappers

  const RESERVED_MS: int := 1500
  const MINIMUM_MS: int := 1000
  const DEFAULT_BUDGET_MS: int := 9000

  /** The pause after each attempt; the last entry repeats. */
  type Schedule = b: seq<nat> | |b| >= 1 witness [0]

  /** What `Get` uses. */
  const BACKOFF: Schedule := [500, 2000]

  function Pause(b: Schedule, i: nat): nat {
    if i < |b| then b[i] else b[|b| - 1]
  }

  /** The pauses still to come before the last of `attempts` attempts. */
  function PausesFrom(b: Schedule, attempt: nat, attempts: nat): nat
    decreases attempts - attempt
  {
    if attempt + 1 >= attempts then 0 else Pause(b, attempt) + PausesFrom(b, attempt + 1, attempts)
  }

  /** What the attempts after this one need: their pauses and a reserve for each. */
  function Reserve(b: Schedule, attempt: nat, attempts: nat): int
    requires attempt < attempts
  {
    PausesFrom(b, attempt, attempts) + RESERVED_MS * (attempts - attempt - 1)
  }

  /** The slice of what is left that an attempt may spend. */
  function Slice(left: int, attempt: nat, attempts: nat, b: Schedule): int {
    if left <= 0 then 0
    else if attempt + 1 >= attempts || left <= Reserve(b, attempt, attempts) then left
    else left - Reserve(b, attempt, attempts)
  }

  method SingleAttemptCap(left: int, attempt: nat, attempts: nat, b: Schedule) returns (slice: int)
    ensures slice == Slice(left, attempt, attempts, b)
  {
    if left <= 0 { return 0; }
    if attempt + 1 >= attempts { return left; }
    var reserve := 0;
    var next := attempt;
    while next < attempts - 1
      invariant attempt <= next <= attempts - 1
      invariant reserve + PausesFrom(b, next, attempts) == PausesFrom(b, attempt, attempts)
    {
      reserve := reserve + (if next < |b| then b[next] else b[|b| - 1]);
      next := next + 1;
    }
    var reserveForRest := reserve + RESERVED_MS * (attempts - attempt - 1);
    if left <= reserveForRest { return left; }
    return left - reserveForRest;
  }

  /** What is left for attempt `attempt + |spent|` when these attempts spent what they did. */
  function LeftAfter(left: int, attempt: nat, b: Schedule, spent: seq<nat>): int
    decreases |spent|
  {
    if spent == [] then left
    else LeftAfter(left - spent[0] - Pause(b, attempt), attempt + 1, b, spent[1..])
  }

  /** Every attempt kept within the slice it was given. */
  predicate Honoured(left: int, attempt: nat, attempts: nat, b: Schedule, spent: seq<nat>)
    decreases |spent|
  {
    spent == [] ||
    (spent[0] <= Slice(left, attempt, attempts, b)
     && Honoured(left - spent[0] - Pause(b, attempt), attempt + 1, attempts, b, spent[1..]))
  }

  /** Every attempt used up the slice it was given. */
  predicate UsedUp(left: int, attempt: nat, attempts: nat, b: Schedule, spent: seq<nat>)
    decreases |spent|
  {
    spent == [] ||
    (spent[0] == Slice(left, attempt, attempts, b)
     && UsedUp(left - spent[0] - Pause(b, attempt), attempt + 1, attempts, b, spent[1..]))
  }

  lemma ReserveStep(b: Schedule, attempt: nat, attempts: nat)
    requires attempt + 1 < attempts
    ensures Reserve(b, attempt, attempts) == Pause(b, attempt) + RESERVED_MS + Reserve(b, attempt + 1, attempts)
    ensures Reserve(b, attempt, attempts) >= RESERVED_MS
  {
  }

  /** A slice is never more than what is left, and never empty while something is. */
  lemma SliceWithinLeft(left: int, attempt: nat, attempts: nat, b: Schedule)
    ensures left > 0 ==> 0 < Slice(left, attempt, attempts, b) <= left
    ensures left <= 0 ==> Slice(left, attempt, attempts, b) == 0
  {
  }

  /**
   Once a slice is cut to keep the reserve, every later attempt is left the reserve of the
   attempts behind it and 1500 ms of its own, however the earlier ones spent their slices;
   exactly that, if they used them up.
   */
  lemma {:induction false} LaterAttemptsFunded(left: int, attempt: nat, attempts: nat, b: Schedule, spent: seq<nat>)
    requires attempt + |spent| < attempts && spent != []
    requires Slice(left, attempt, attempts, b) < left
    requires Honoured(left, attempt, attempts, b, spent)
    ensures var later, rest := attempt + |spent|, LeftAfter(left, attempt, b, spent);
            && rest >= Reserve(b, later, attempts) + RESERVED_MS
            && Slice(rest, later, attempts, b) >= RESERVED_MS
            && (UsedUp(left, attempt, attempts, b, spent) ==> Slice(rest, later, attempts, b) == RESERVED_MS)
    decreases |spent|
  {
    ReserveStep(b, attempt, attempts);
    var next := left - spent[0] - Pause(b, attempt);
    if |spent| > 1 {
      ReserveStep(b, attempt + 1, attempts);
      LaterAttemptsFunded(next, attempt + 1, attempts, b, spent[1..]);
    } else {
      assert spent[1..] == [];
    }
  }

  /**
   Which remainders a retry is admitted with. Cutting the slice makes this no single
   threshold: just above the reserve the slice is too short and the retry is refused.
   */
  lemma AdmissionWindow(left: int, attempt: nat, attempts: nat, b: Schedule)
    requires attempt < attempts
    ensures Slice(left, attempt, attempts, b) >= MINIMUM_MS <==>
            && left >= MINIMUM_MS
            && (attempt + 1 == attempts
                || left <= Reserve(b, attempt, attempts)
                || left >= Reserve(b, attempt, attempts) + MINIMUM_MS)
  {
    if attempt + 1 < attempts { ReserveStep(b, attempt, attempts); }
  }

  /** Before the second of three attempts, 4000 ms leave a slice of 500 ms and 3500 ms one of 3500 ms. */
  lemma MoreLeftIsRefused()
    ensures Slice(3500, 1, 3, BACKOFF) == 3500 >= MINIMUM_MS
    ensures Slice(4000, 1, 3, BACKOFF) == 500 < MINIMUM_MS
  {
    assert PausesFrom(BACKOFF, 2, 3) == 0;
    assert Reserve(BACKOFF, 1, 3) == 3500;
  }

  // ------------------------------------------------------------------- the Get loop

  datatype Verdict = Final | Transient | AdmissionFailure

  /**
   What the world does around one attempt: the time from the previous attempt (or the
   start) until its slice is computed, whether a stop is seen before it, how long it
   takes, whether a stop is seen after it, and what came of it.
   */
  datatype Turn = Turn(pause: nat, stopBefore: bool, run: nat, stopAfter: bool, verdict: Verdict)

  datatype Ending = Overloaded | Stopped | Exhausted | Answered

  function MaxAttempts(retryAllowed: bool): nat { if retryAllowed then 3 else 1 }

  function Due(attempt: nat): nat { if attempt == 0 then 0 else Pause(BACKOFF, attempt - 1) }

  function Positive(x: int): nat { if x > 0 then x else 0 }

  /** Attempts keep to their slices and pauses to the schedule, each with at most `slack` to spare. */
  predicate OnTime(env: seq<Turn>, slices: seq<int>, slack: nat)
    requires |slices| <= |env|
  {
    && (forall i :: 0 <= i < |slices| ==> env[i].run <= slices[i] + slack)
    && (forall i :: 0 <= i < |env| ==> env[i].pause <= Due(i) + slack)
  }

  /** Time spent on the first `n` attempts and the pauses before them. */
  function Spent(env: seq<Turn>, n: nat): nat
    requires n <= |env|
  {
    if n == 0 then 0 else Spent(env, n - 1) + env[n - 1].pause + env[n - 1].run
  }

  lemma SpentStep(env: seq<Turn>, n: nat)
    requires n < |env|
    ensures Spent(env, 0) == 0
    ensures Spent(env, n + 1) == Spent(env, n) + env[n].pause + env[n].run
  {
  }

  /** Every attempt was given its share of what was left when it began. */
  ghost predicate Sliced(total: int, env: seq<Turn>, slices: seq<int>)
    requires |slices| <= |env|
  {
    forall i :: 0 <= i < |slices| ==> IsShare(total, env, i, slices[i])
  }

  predicate IsShare(total: int, env: seq<Turn>, i: nat, slice: int)
    requires i < |env|
  {
    slice == Slice(total - Spent(env, i) - env[i].pause, i, |env|, BACKOFF)
  }

  lemma SlicedEmpty(total: int, env: seq<Turn>)
    ensures Sliced(total, env, [])
  {
  }

  lemma SlicedMore(total: int, env: seq<Turn>, slices: seq<int>, budget: int)
    requires |slices| < |env| && Sliced(total, env, slices)
    requires budget == Slice(total - Spent(env, |slices|) - env[|slices|].pause, |slices|, |env|, BACKOFF)
    ensures Sliced(total, env, slices + [budget])
  {
    assert IsShare(total, env, |slices|, budget);
    hide Slice, Spent, IsShare;
    var more := slices + [budget];
    forall i | 0 <= i < |more| ensures IsShare(total, env, i, more[i])
    {
      if i < |slices| { assert more[i] == slices[i]; }
    }
  }

  /** All the time that passed: a run ended before an attempt has also paused for it. */
  function Clock(env: seq<Turn>, slices: seq<int>, ending: Ending): nat
    requires |slices| <= |env|
  {
    Spent(env, |slices|) +
    if |slices| < |env| && (ending.Exhausted? || (ending.Stopped? && (|slices| == 0 || !env[|slices| - 1].stopAfter)))
    then env[|slices|].pause else 0
  }

  /**
   The retry loop of a GET. Whatever happens around it, it never spends more than the total
   beyond one delay, retries only transient failures, and gives a retry at least a second.
   */
  method Attempts(total: int, retryAllowed: bool, env: seq<Turn>, ghost slack: nat)
    returns (ending: Ending, elapsed: nat, slices: seq<int>)
    requires |env| == MaxAttempts(retryAllowed)
    ensures !ending.Overloaded?
    ensures |slices| <= MaxAttempts(retryAllowed)
    ensures Sliced(total, env, slices)
    ensures forall i :: 0 <= i < |slices| ==> slices[i] > 0 && !env[i].stopBefore
    ensures forall i :: 0 < i < |slices| ==> slices[i] >= MINIMUM_MS
    ensures forall i :: 0 <= i < |slices| - 1 ==> env[i].verdict.Transient? && !env[i].stopAfter
    ensures OnTime(env, slices, slack) ==> elapsed <= Positive(total) + slack
    ensures ending.Answered? ==>
              && |slices| > 0
              && var last := env[|slices| - 1];
                 !last.stopAfter && (last.verdict.Transient? ==>
                   || |slices| == MaxAttempts(retryAllowed)
                   || Slice(total - elapsed - Due(|slices|), |slices|, MaxAttempts(retryAllowed), BACKOFF) < MINIMUM_MS)
    ensures ending.Exhausted? ==> |slices| < |env| && (|slices| == 0 || env[|slices|].pause != Due(|slices|))
    ensures ending.Exhausted? && |slices| == 0 ==> total <= env[0].pause
    ensures ending.Stopped? ==>
              || (|slices| < |env| && env[|slices|].stopBefore)
              || (|slices| > 0 && env[|slices| - 1].stopAfter)
    ensures elapsed == Clock(env, slices, ending)
  {
    hide Slice, Reserve, PausesFrom, Pause, Spent, Sliced;
    SlicedEmpty(total, env);
    var maxAttempts := MaxAttempts(retryAllowed);
    elapsed, slices := 0, [];
    var attempt := 0;
    SpentStep(env, 0);
    while attempt < maxAttempts
      invariant attempt < maxAttempts && |slices| == attempt
      invariant elapsed == Spent(env, attempt)
      invariant attempt > 0 ==> elapsed + Due(attempt) + MINIMUM_MS <= total
      invariant attempt > 0 ==> Slice(total - elapsed - Due(attempt), attempt, maxAttempts, BACKOFF) >= MINIMUM_MS
      invariant Sliced(total, env, slices)
      invariant forall i :: 0 <= i < |slices| ==> slices[i] > 0 && !env[i].stopBefore
      invariant forall i :: 0 < i < |slices| ==> slices[i] >= MINIMUM_MS
      invariant forall i :: 0 <= i < |slices| ==> env[i].verdict.Transient? && !env[i].stopAfter
    {
      SpentStep(env, attempt);
      elapsed := elapsed + env[attempt].pause;
      if env[attempt].stopBefore { return Stopped, elapsed, slices; }
      var remaining := total - elapsed;
      var budget := SingleAttemptCap(remaining, attempt, maxAttempts, BACKOFF);
      SliceWithinLeft(remaining, attempt, maxAttempts, BACKOFF);
      if attempt > 0 && budget < MINIMUM_MS { return Exhausted, elapsed, slices; }
      if remaining <= 0 { return Exhausted, elapsed, slices; }
      SlicedMore(total, env, slices, budget);
      slices := slices + [budget];
      elapsed := elapsed + env[attempt].run;
      if env[attempt].stopAfter { return Stopped, elapsed, slices; }
      if !env[attempt].verdict.Transient? || attempt + 1 == maxAttempts {
        return Answered, elapsed, slices;
      }
      var next := SingleAttemptCap(total - elapsed - Pause(BACKOFF, attempt), attempt + 1, maxAttempts, BACKOFF);
      if next < MINIMUM_MS { return Answered, elapsed, slices; }
      AdmissionWindow(total - elapsed - Due(attempt + 1), attempt + 1, maxAttempts, BACKOFF);
      attempt := attempt + 1;
    }
    assert false;
  }

  function Min(a: int, b: int): int { if a < b then a else b }

  function AtLeastOne(x: int): int { if x < 1 then 1 else x }

  /** The milliseconds a GET may take: nine seconds by default, and no more than the route has left. */
  function Allowance(requested: int, routeLeft: Option<int>): int {
    var own := if requested > 0 then requested else 9000;
    if routeLeft.None? then own
    else if routeLeft.value < 1 then 1
    else if routeLeft.value < own then routeLeft.value
    else own
  }

  /** Of an ample budget the first attempt leaves 5500 ms to the retries; otherwise it gets all of it. */
  lemma FirstShare(total: int, env: seq<Turn>, slices: seq<int>, retryAllowed: bool)
    requires |env| == MaxAttempts(retryAllowed) && 0 < |slices| <= |env| && Sliced(total, env, slices)
    requires total > 0 && env[0].pause == 0
    ensures slices[0] == if retryAllowed && total > 5500 then total - 5500 else total
  {
    assert IsShare(total, env, 0, slices[0]);
    assert Reserve(BACKOFF, 0, 3) == 5500;
  }

  /** Nothing but transient failures, no stop, and the pauses of the schedule to the millisecond. */
  predicate OnlyTransient(env: seq<Turn>) {
    && |env| == 3
    && env[0].pause == 0 && env[1].pause == 500 && env[2].pause == 2000
    && forall i :: 0 <= i < 3 ==> env[i].verdict.Transient? && !env[i].stopBefore && !env[i].stopAfter
  }

  lemma RetryIsFunded(total: int, env: seq<Turn>, slices: seq<int>)
    requires total > 5500 && OnlyTransient(env) && 1 <= |slices| <= 2
    requires Sliced(total, env, slices) && OnTime(env, slices, 0)
    ensures Slice(total - Spent(env, |slices|) - Due(|slices|), |slices|, 3, BACKOFF) >= 1000
  {
    FirstShare(total, env, slices, true);
    assert Reserve(BACKOFF, 1, 3) == 3500 && Reserve(BACKOFF, 0, 3) == 5500;
    assert Spent(env, 1) == env[0].run;
    if |slices| == 2 {
      assert IsShare(total, env, 1, slices[1]);
      assert Spent(env, 2) == env[0].run + 500 + env[1].run;
    }
  }

  /** From an ample budget three attempts are made, unless something else ends the run. */
  lemma ThreeAttempts(total: int, env: seq<Turn>, slices: seq<int>, ending: Ending, elapsed: nat)
    requires total > 5500 && OnlyTransient(env) && |slices| <= 3
    requires Sliced(total, env, slices) && OnTime(env, slices, 0) && elapsed == Clock(env, slices, ending)
    requires ending.Answered? ==>
               && |slices| > 0
               && (|slices| == 3 || Slice(total - elapsed - Due(|slices|), |slices|, 3, BACKOFF) < MINIMUM_MS)
    requires ending.Exhausted? ==> |slices| < 3 && (|slices| == 0 || env[|slices|].pause != Due(|slices|))
    requires ending.Exhausted? && |slices| == 0 ==> total <= env[0].pause
    requires !ending.Stopped? && !ending.Overloaded?
    ensures |slices| == 3 && ending.Answered?
  {
    assert Due(1) == 500 && Due(2) == 2000;
    if 1 <= |slices| <= 2 { RetryIsFunded(total, env, slices); }
  }

  /**
   A GET with the default for a budget that was not given, bounded by what the route has
   left; `armed` says whether the watchdog took its deadline.
   */
  method Get(requested: int, routeLeft: Option<int>, armed: bool, retryAllowed: bool, env: seq<Turn>, ghost slack: nat)
    returns (ending: Ending, elapsed: nat, slices: seq<int>)
    requires |env| == MaxAttempts(retryAllowed)
    ensures |slices| <= |env|
    ensures ending.Overloaded? <==> !armed
    ensures !armed ==> slices == [] && elapsed == 0
    ensures OnTime(env, slices, slack) ==> elapsed <= Allowance(requested, routeLeft) + slack
    ensures |slices| <= (if retryAllowed then 3 else 1)
    ensures forall i :: 0 < i < |slices| ==> slices[i] >= 1000 && env[i - 1].verdict.Transient?
    ensures ending.Answered? ==> slices != []
    ensures armed && !env[0].stopBefore && env[0].pause == 0 ==>
              && slices != []
              && var budget := Allowance(requested, routeLeft);
                 slices[0] == if retryAllowed && budget > 5500 then budget - 5500 else budget
    ensures armed && Allowance(requested, routeLeft) > 5500 && OnlyTransient(env) && OnTime(env, slices, 0) ==>
              |slices| == 3 && ending.Answered?
  {
    var total := if requested > 0 then requested else DEFAULT_BUDGET_MS;
    if routeLeft.Some? { total := Min(total, AtLeastOne(routeLeft.value)); }
    if !armed {
      ending, elapsed, slices := Overloaded, 0, [];
    } else {
      assert total == Allowance(requested, routeLeft) > 0;
      hide OnTime, Sliced, Clock, Slice, Allowance, Spent;
      ending, elapsed, slices := Attempts(total, retryAllowed, env, slack);
      if slices != [] && env[0].pause == 0 { FirstShare(total, env, slices, retryAllowed); }
      if total > 5500 && OnlyTransient(env) && OnTime(env, slices, 0) {
        ThreeAttempts(total, env, slices, ending, elapsed);
      }
    }
  }

  /** With more than 5500 ms, each attempt after the first is left at least 1500 ms. */
  lemma AmpleBudget(total: int, spent: seq<nat>)
    requires total > 5500 && 1 <= |spent| < 3
    requires Honoured(total, 0, 3, BACKOFF, spent)
    ensures Slice(LeftAfter(total, 0, BACKOFF, spent), |spent|, 3, BACKOFF) >= RESERVED_MS
  {
    assert Reserve(BACKOFF, 0, 3) == 5500;
    LaterAttemptsFunded(total, 0, 3, BACKOFF, spent);
  }

  // ------------------------------------------------------- per-phase timeouts

  datatype RequestTimeouts = RequestTimeouts(resolve: int, connect: int, send: int, receive: int)

  /**
   The phases that run before the first response byte fit the total exactly when it is at
   least 300 ms: below that the 100 ms floors alone exceed it.
   */
  method DeriveRequestTimeouts(total: int) returns (t: RequestTimeouts)
    ensures total <= 0 ==> t == RequestTimeouts(0, 0, 0, 0)
    ensures total > 0 ==> (t.resolve + t.connect + t.send <= total <==> total >= 300)
    ensures 0 < total < 400 ==> t.resolve == t.connect == t.send == 100
    ensures total >= 400 ==>
              && t.resolve == Min(total / 4, 5000) && t.connect == Min(total / 4, 6000)
              && t.send == Min(total / 4, 10000)
    ensures 0 < total < 300 ==> t.receive == 100
    ensures total >= 300 ==> t.receive == Min(total / 3, 10000)
  {
    t := RequestTimeouts(0, 0, 0, 0);
    if total <= 0 { return; }
    var quarter := if total / 4 < 100 then 100 else total / 4;
    t := t.(resolve := if quarter < 5000 then quarter else 5000);
    t := t.(connect := if quarter < 6000 then quarter else 6000);
    t := t.(send := if quarter < 10000 then quarter else 10000);
    var third := if total / 3 < 100 then 100 else total / 3;
    t := t.(receive := if third < 10000 then third else 10000);
  }
}
