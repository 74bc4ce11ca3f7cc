/**
 The watchdog object: the fields its two mutexes protect, with the claim-flag index that
 the state machine does not have. One method per lock region or atomic operation.
 */
module Watchdog {
  import opened Wrappers
  import opened Counting
  import opened WatchdogModel

  // ------------------------------------------------------- claim-flag index

  predicate Distinct<T(==)>(s: seq<T>) {
    forall i, j :: 0 <= i < j < |s| ==> s[i] != s[j]
  }

  /** `byFlag` lists every key of the map exactly once, under the flag of its entry. */
  ghost predicate Indexed(deadlines: map<Key, Entry>, byFlag: map<Flag, seq<Key>>) {
    && (forall f :: f in byFlag ==> byFlag[f] != [] && Distinct(byFlag[f]))
    && (forall f, n :: f in byFlag && 0 <= n < |byFlag[f]| ==>
          byFlag[f][n] in deadlines && deadlines[byFlag[f][n]].flag == f)
    && (forall k :: k in deadlines ==> deadlines[k].flag in byFlag && k in byFlag[deadlines[k].flag])
  }

  function IndexAdd(byFlag: map<Flag, seq<Key>>, f: Flag, k: Key): map<Flag, seq<Key>> {
    byFlag[f := (if f in byFlag then byFlag[f] else []) + [k]]
  }

  function IndexDrop(byFlag: map<Flag, seq<Key>>, f: Flag, n: nat): map<Flag, seq<Key>>
    requires f in byFlag && n < |byFlag[f]|
  {
    if |byFlag[f]| == 1 then byFlag - {f} else byFlag[f := Remove(byFlag[f], n)]
  }

  lemma IndexedAdd(deadlines: map<Key, Entry>, byFlag: map<Flag, seq<Key>>, e: Entry)
    requires Indexed(deadlines, byFlag) && KeyOf(e) !in deadlines
    ensures Indexed(deadlines[KeyOf(e) := e], IndexAdd(byFlag, e.flag, KeyOf(e)))
  {
    var d := deadlines[KeyOf(e) := e];
    var b := IndexAdd(byFlag, e.flag, KeyOf(e));
    var old' := if e.flag in byFlag then byFlag[e.flag] else [];
    assert b[e.flag] == old' + [KeyOf(e)];
    forall k | k in d ensures d[k].flag in b && k in b[d[k].flag] {
      if k == KeyOf(e) { assert b[e.flag][|old'|] == k; } else if d[k].flag == e.flag { assert k in old'; }
    }
  }

  lemma InRemove<T>(s: seq<T>, n: nat, x: T)
    requires n < |s| && x in s && x != s[n]
    ensures x in Remove(s, n)
  {
    var i :| 0 <= i < |s| && s[i] == x;
    assert Remove(s, n)[if i < n then i else i - 1] == x;
  }

  lemma IndexedDrop(deadlines: map<Key, Entry>, byFlag: map<Flag, seq<Key>>, f: Flag, n: nat)
    requires Indexed(deadlines, byFlag) && f in byFlag && n < |byFlag[f]|
    ensures Indexed(deadlines - {byFlag[f][n]}, IndexDrop(byFlag, f, n))
  {
    var d := deadlines - {byFlag[f][n]};
    var b := IndexDrop(byFlag, f, n);
    forall g | g in b
      ensures b[g] != [] && Distinct(b[g])
      ensures forall m :: 0 <= m < |b[g]| ==> b[g][m] in d && d[b[g][m]].flag == g
    {
      if g == f { RemoveKeeps(byFlag[f], n); }
    }
    forall k | k in d ensures d[k].flag in b && k in b[d[k].flag] {
      if d[k].flag == f {
        InRemove(byFlag[f], n, k);
      }
    }
  }

  lemma RemoveKeeps<T>(s: seq<T>, n: nat)
    requires n < |s| && Distinct(s)
    ensures Distinct(Remove(s, n)) && s[n] !in Remove(s, n)
    ensures forall x :: x in Remove(s, n) ==> x in s
  {
    var r := Remove(s, n);
    forall i | 0 <= i < |r| ensures r[i] == s[if i < n then i else i + 1] {}
  }

  lemma IndexedEmpty()
    ensures Indexed(map[], map[])
  {
  }

  // ----------------------------------------------------------- the object

  datatype ArmOutcome = Armed | NotArmed | Threw

  /** One entry was added, under `key`, due at the key's deadline and claimed by `flag` alone. */
  predicate ArmedUnder(before: map<Key, Entry>, after: map<Key, Entry>, key: Key, flag: Flag) {
    && key !in before && key in after && after == before[key := after[key]]
    && after[key].due == after[key].deadline == key.deadline
    && after[key].flag == flag && !after[key].owned
  }

  class RequestWatchdog {
    var deadlines: map<Key, Entry>
    var byFlag: map<Flag, seq<Key>>
    var nextSeq: nat
    var timerStop: bool
    var queue: seq<Entry>
    var execStop: bool
    var pending: nat
    var flags: set<Flag>  // the claim flags, owned by the callers
    var accepted: nat     // numbers the armed entries

    // The clock, the positions of the threads, and the deliveries so far.
    ghost var now: int
    ghost var arming: nat
    ghost var cancelling: seq<Entry>
    ghost var retired: map<Key, Entry>
    ghost var destructor: Destructor
    ghost var timer: Timer
    ghost var running: seq<Entry>
    ghost var delivered: seq<Entry>

    ghost predicate Valid()
      reads this`deadlines, this`byFlag, this`nextSeq
    {
      && Indexed(deadlines, byFlag)
      && forall k :: k in deadlines ==> KeyOf(deadlines[k]) == k && k.order < nextSeq
    }

    ghost function View(): State
      reads this
    {
      State(deadlines, nextSeq, timerStop, queue, execStop, pending, flags, now, arming, cancelling,
            retired, destructor, timer, running, accepted, delivered)
    }

    constructor (ghost start: int)
      ensures Valid() && View() == Init(start)
    {
      deadlines, byFlag, nextSeq, timerStop := map[], map[], 1, false;
      queue, execStop, pending, flags, accepted := [], false, 0, {}, 0;
      now, arming, cancelling, retired, destructor := start, 0, [], map[], Alive;
      timer, running, delivered := Watching, [], [];
    }

    method InsertEntry(entry: Entry)
      requires Valid() && entry.order == nextSeq
      modifies this`deadlines, this`byFlag, this`nextSeq
      ensures Valid() && nextSeq == old(nextSeq) + 1
      ensures deadlines == old(deadlines)[KeyOf(entry) := entry]
    {
      IndexedAdd(deadlines, byFlag, entry);
      deadlines := deadlines[KeyOf(entry) := entry];
      byFlag := IndexAdd(byFlag, entry.flag, KeyOf(entry));
      nextSeq := nextSeq + 1;
    }

    /** Walks the range of the entry's flag to find the node that points at `key`. */
    method ExtractEntry(key: Key) returns (entry: Entry)
      requires Valid() && key in deadlines
      modifies this`deadlines, this`byFlag
      ensures Valid() && entry == old(deadlines)[key] && deadlines == old(deadlines) - {key}
    {
      entry := deadlines[key];
      var range := byFlag[entry.flag];
      var n := 0;
      while range[n] != key
        invariant n < |range| && key !in range[..n]
        decreases |range| - n
      {
        assert key in range[n + 1..] by {
          assert range == range[..n] + [range[n]] + range[n + 1..];
        }
        n := n + 1;
      }
      IndexedDrop(deadlines, byFlag, entry.flag, n);
      byFlag := IndexDrop(byFlag, entry.flag, n);
      deadlines := deadlines - {key};
    }

    /** The admission loop of Arm. */
    method Admit() returns (ok: bool)
      requires Valid()
      modifies this
      ensures Valid() && View() == Apply(old(View()), Reserve) && ok == (old(pending) < MAX_PENDING)
    {
      if pending >= MAX_PENDING { return false; }
      pending := (pending + 1) % WORD;
      arming := arming + 1;
      return true;
    }

    /** The lock region of Arm: `clock` is the steady clock's reading, `delay` the timeout. */
    method InsertArmed(clock: int, delay: nat, flag: Flag) returns (armed: bool)
      requires Valid() && arming > 0 && clock == now
      modifies this
      ensures Valid() && View() == Apply(old(View()), Insert(delay, flag)) && armed == !old(timerStop)
    {
      armed := !timerStop;
      if armed { InsertFresh(clock, delay, flag); } else { GiveBack(delay, flag); }
    }

    method InsertFresh(clock: int, delay: nat, flag: Flag)
      requires Valid() && arming > 0 && clock == now && !timerStop
      modifies this
      ensures Valid() && View() == Apply(old(View()), Insert(delay, flag))
    {
      hide Indexed;
      var entry := Entry(accepted, clock + delay, clock + delay, nextSeq, flag, false);
      assert entry == Fresh(View(), delay, flag);
      arming := arming - 1;
      accepted := accepted + 1;
      InsertEntry(entry);
    }

    method GiveBack(ghost delay: nat, ghost flag: Flag)
      requires Valid() && arming > 0 && timerStop
      modifies this
      ensures Valid() && View() == Apply(old(View()), Insert(delay, flag))
    {
      arming := arming - 1;
      pending := Release(pending, 1);
    }

    /**
     Arm as one caller sees it when nobody interferes; `fails` says that a thread cannot be
     started or an allocation fails, which is thrown to the caller.
     */
    method Arm(clock: int, timeoutMs: int, claimed: Option<Flag>, hasAction: bool, fails: bool)
      returns (outcome: ArmOutcome)
      requires Valid() && clock == now
      modifies this
      ensures Valid()
      ensures timeoutMs <= 0 || claimed.None? || !hasAction || old(pending) >= MAX_PENDING ==>
                outcome == NotArmed && View() == old(View())
      ensures timeoutMs > 0 && claimed.Some? && hasAction && old(pending) < MAX_PENDING ==>
                && outcome == (if old(timerStop) then NotArmed else if fails then Threw else Armed)
                && View() == Apply(Apply(old(View()), Reserve),
                                   if outcome == Threw then InsertFails else Insert(timeoutMs, claimed.value))
      ensures outcome == Armed ==>
                && claimed.Some?
                && ArmedUnder(old(deadlines), deadlines, Key(clock + timeoutMs, old(nextSeq)), claimed.value)
                && nextSeq == old(nextSeq) + 1 && pending == old(pending) + 1
      ensures outcome != Armed ==> deadlines == old(deadlines) && pending == old(pending)
    {
      hide Indexed;
      if timeoutMs <= 0 || claimed.None? || !hasAction { return NotArmed; }
      var ok := Admit();
      if !ok { return NotArmed; }
      if fails && !timerStop {
        InsertFailed();
        return Threw;
      }
      var armed := InsertArmed(clock, timeoutMs, claimed.value);
      return if armed then Armed else NotArmed;
    }

    /** The lock region of Cancel. */
    method CancelEntry(flag: Flag) returns (found: bool, key: Key)
      requires Valid()
      modifies this
      ensures Valid() && found == exists k :: k in old(deadlines) && old(deadlines)[k].flag == flag
      ensures !found ==> View() == old(View())
      ensures found ==> && key in old(deadlines) && old(deadlines)[key].flag == flag
                        && View() == Apply(old(View()), CancelTake(key))
    {
      key := Key(0, 0);
      if flag !in byFlag {
        forall k | k in deadlines ensures deadlines[k].flag != flag {}
        return false, key;
      }
      key := byFlag[flag][0];
      assert key in deadlines && deadlines[key].flag == flag;
      var entry := ExtractEntry(key);
      cancelling := cancelling + [entry];
      return true, key;
    }

    /** The release that follows a successful Cancel, outside the lock. */
    method CancelDone(ghost index: nat)
      requires Valid() && index < |cancelling|
      modifies this
      ensures Valid() && View() == Apply(old(View()), CancelRelease(index))
    {
      pending := Release(pending, 1);
      cancelling := Remove(cancelling, index);
    }

    /** The exception path of Arm: thread creation or an allocation failed. */
    method InsertFailed()
      requires Valid() && arming > 0
      modifies this
      ensures Valid() && View() == Apply(old(View()), InsertFails)
    {
      pending := Release(pending, 1);
      arming := arming - 1;
    }

    /** The destructor's first lock region. */
    method SwapOut() returns (batch: map<Key, Entry>)
      requires Valid() && destructor.Alive?
      modifies this
      ensures Valid() && View() == Apply(old(View()), DestroySwap) && batch == old(deadlines)
    {
      IndexedEmpty();
      hide Indexed;
      timerStop := true;
      batch := deadlines;
      retired := deadlines;
      deadlines, byFlag := map[], map[];
      destructor := Swapped;
    }

    method ReleaseBatch(batch: map<Key, Entry>)
      requires Valid() && destructor.Swapped? && batch == retired
      modifies this
      ensures Valid() && View() == Apply(old(View()), DestroyRelease)
    {
      pending := Release(pending, |batch|);
      retired, destructor := map[], Released;
    }

    method Silence()
      requires Valid() && destructor.Released?
      modifies this
      ensures Valid() && View() == Apply(old(View()), DestroySilence)
    {
      execStop := true;
      destructor := Silenced;
    }

    /** `begin()` of the ordered map. */
    method FirstDeadline() returns (key: Key)
      requires deadlines != map[]
      ensures IsFirst(deadlines, key)
    {
      key :| key in deadlines.Keys;
      var rest := deadlines.Keys - {key};
      while rest != {}
        invariant rest <= deadlines.Keys && key in deadlines
        invariant forall k :: k in deadlines ==> k in rest || Before(key, k)
        decreases rest
      {
        var k :| k in rest;
        if Before(k, key) { key := k; }
        rest := rest - {k};
      }
    }

    /** The timer's first lock region at clock reading `clock`: pop, leave, or keep waiting. */
    method TimerRegion(clock: int) returns (expired: Option<Entry>)
      requires Valid() && timer.Watching? && clock == now
      modifies this
      ensures Valid()
      ensures old(timerStop) ==> expired == None && View() == Apply(old(View()), TimerQuit)
      ensures !old(timerStop) && expired.None? ==>
                View() == old(View()) && forall k :: k in deadlines ==> deadlines[k].deadline > clock
      ensures !old(timerStop) && expired.Some? ==>
                && Enabled(old(View()), TimerPop(KeyOf(expired.value)))
                && View() == Apply(old(View()), TimerPop(KeyOf(expired.value)))
    {
      if timerStop {
        timer := Stopped;
        return None;
      }
      if deadlines == map[] { return None; }
      var first := FirstDeadline();
      if deadlines[first].deadline > clock {
        forall k | k in deadlines ensures deadlines[k].deadline > clock {
          assert Before(first, k);
        }
        return None;
      }
      var entry := Pop(first);
      return Some(entry);
    }

    method Pop(first: Key) returns (entry: Entry)
      requires Valid() && Enabled(View(), TimerPop(first))
      modifies this
      ensures Valid() && View() == Apply(old(View()), TimerPop(first))
      ensures entry == old(deadlines)[first] && KeyOf(entry) == first
    {
      entry := ExtractEntry(first);
      timer := Holding(entry);
    }

    /** Claim arbitration: an owned entry has won already, a fresh one must win the CAS. */
    method Arbitrate(entry: Entry) returns (won: bool)
      requires Valid() && timer == Holding(entry)
      modifies this
      ensures Valid() && View() == Apply(old(View()), TimerClaim)
      ensures won == (entry.owned || entry.flag !in old(flags))
    {
      if !entry.owned {
        if entry.flag in flags {
          timer := Lost(entry);
          return false;
        }
        flags := flags + {entry.flag};
      }
      timer := Won(entry);
      return true;
    }

    /** The lazy drop of an entry whose job had finished first. */
    method DropDead(entry: Entry)
      requires Valid() && timer == Lost(entry)
      modifies this
      ensures Valid() && View() == Apply(old(View()), TimerDrop)
    {
      pending := Release(pending, 1);
      timer := Watching;
    }

    /** The delivery region under the executor mutex. */
    method Deliver(entry: Entry) returns (ok: bool)
      requires Valid() && timer == Won(entry)
      modifies this
      ensures Valid() && View() == Apply(old(View()), TimerDeliver)
      ensures ok == (!old(execStop) && |old(queue)| < QUEUE_CAP)
    {
      if !execStop && |queue| < QUEUE_CAP {
        queue := queue + [entry];
        delivered := delivered + [entry];
        timer := Watching;
        return true;
      }
      timer := Full(entry);
      return false;
    }

    /** The saturation path: re-arm as owned, or give up when the watchdog is stopping. */
    method Retry(clock: int, entry: Entry) returns (rearmed: bool)
      requires Valid() && timer == Full(entry) && clock == now
      modifies this
      ensures Valid() && View() == Apply(old(View()), TimerRetry) && rearmed == !old(timerStop)
    {
      rearmed := !timerStop;
      if rearmed { Rearm(clock, entry); } else { GiveUp(entry); }
    }

    method Rearm(clock: int, entry: Entry)
      requires Valid() && timer == Full(entry) && clock == now && !timerStop
      modifies this
      ensures Valid() && View() == Apply(old(View()), TimerRetry)
    {
      hide Indexed;
      var retry := entry.(deadline := clock + RETRY_DELAY, order := nextSeq, owned := true);
      assert retry == Rearmed(View(), entry);
      timer := Watching;
      InsertEntry(retry);
    }

    method GiveUp(entry: Entry)
      requires Valid() && timer == Full(entry) && timerStop
      modifies this
      ensures Valid() && View() == Apply(old(View()), TimerRetry)
    {
      pending := Release(pending, 1);
      timer := Stopped;
    }

    /** An executor's lock region: take the oldest action. */
    method TakeAction() returns (entry: Entry)
      requires Valid() && queue != [] && |running| < EXECUTORS
      modifies this
      ensures Valid() && View() == Apply(old(View()), ExecutorTake) && entry == old(queue)[0]
    {
      entry := queue[0];
      queue := queue[1..];
      running := running + [entry];
    }

    /** The release after an action has returned or thrown. */
    method ActionDone(ghost index: nat)
      requires Valid() && index < |running|
      modifies this
      ensures Valid() && View() == Apply(old(View()), ExecutorDone(index))
    {
      pending := Release(pending, 1);
      running := Remove(running, index);
    }
  }
}
