/**
 When the lyric cache answers: what an accepted result is served as and for how long, what
 other calls leave of it, and in which order entries give way.
 */
module LyricCacheHits {
  import opened Alphabets
  import opened LyricCacheModel
  import opened Wrappers

  // -------------------------------------------------------------------- served hits

  /** The stored result, marked as a hit that cost no time and no request. */
  predicate IsHit(answer: Option<Content>, stored: Content) {
    && answer.Some?
    && answer.value.text == stored.text && answer.value.candidates == stored.candidates
    && answer.value.diagnostics.cacheHit && answer.value.diagnostics.durationMs == 0
    && answer.value.diagnostics.httpAttempts == 0
  }

  /** A result of at most 128 KiB is served from its Put until it expires; a larger one changes nothing. */
  lemma AcceptedPutIsServed(c: Cache, op: Op, now: int)
    requires op.Put?
    ensures var d := Apply(c, op);
            if op.cost <= 131072
            then
              if now < op.expires then IsHit(Answer(d, op.key, now), op.content)
              else Answer(d, op.key, now) == None
            else d == c
  {
    hide Evict, Live, Total;
    if op.cost <= MAX_ENTRY_BYTES { PutResult(c, op); }
  }

  /** A lookup leaves every answer as it was, now and later. */
  lemma GetKeepsAnswers(c: Cache, op: Op, key: string, now: int)
    requires op.Get? && op.now <= now
    ensures Answer(Apply(c, op), key, now) == Answer(c, key, now)
  {
  }

  /** While there is room for it, a Put leaves every other answer as it was. */
  lemma PutKeepsOthers(c: Cache, op: Op, key: string, now: int)
    requires op.Put? && op.now <= now && key != op.key
    requires var others := Live(c.entries, op.now) - {op.key};
             |others| < 128 && Total(others) + op.cost <= 2 * 1024 * 1024
    ensures Answer(Apply(c, op), key, now) == Answer(c, key, now)
  {
    assert Evict(Live(c.entries, op.now) - {op.key}, op.cost) == Live(c.entries, op.now) - {op.key};
    hide Evict, Total;
  }

  /** Whatever was asked of it, the cache holds at most 128 results, of 128 KiB each and 2 MiB in all. */
  lemma BudgetsHold(ops: seq<Op>)
    ensures var m := Run(EMPTY, ops).entries;
            |m| <= 128 && Total(m) <= 2097152 && forall k :: k in m ==> m[k].bytes <= 131072
  {
    RunInv(ops);
    hide Run, Total;
  }

  // ------------------------------------------------------------ least recently used

  predicate Uses(op: Op, key: string) {
    (op.Put? && op.cost <= 131072 && op.key == key) || (op.Get? && op.key == key)
  }

  /** How far into the run the key was last stored or looked up; 0 for never. */
  function LastUse(ops: seq<Op>, key: string): (n: nat)
    ensures n <= |ops|
  {
    if ops == [] then 0
    else if Uses(ops[|ops| - 1], key) then |ops|
    else LastUse(ops[..|ops| - 1], key)
  }

  /** What one call makes of an entry: the call's own key is youngest, the others stay. */
  lemma AgeStep(c: Cache, op: Op, key: string)
    requires Inv(c) && key in Apply(c, op).entries
    ensures Uses(op, key) ==>
              Apply(c, op).entries[key].used == Apply(c, op).sequence == c.sequence + 1
    ensures !Uses(op, key) ==>
              key in c.entries && Apply(c, op).entries[key] == c.entries[key] && c.entries[key].used <= c.sequence
    ensures Apply(c, op).sequence >= c.sequence
  {
    hide Total, Evict;
    if op.Put? && op.cost <= MAX_ENTRY_BYTES {
      EvictIsPart(Live(c.entries, op.now) - {op.key}, op.cost);
      PutResult(c, op);
    }
  }

  /** Ages are the order of the last uses. */
  lemma {:induction false} AgesFollowUses(ops: seq<Op>, j: string, k: string)
    requires j in Run(EMPTY, ops).entries && k in Run(EMPTY, ops).entries
    ensures Run(EMPTY, ops).entries[j].used < Run(EMPTY, ops).entries[k].used <==> LastUse(ops, j) < LastUse(ops, k)
  {
    if ops != [] {
      var init, last := ops[..|ops| - 1], ops[|ops| - 1];
      var c := Run(EMPTY, init);
      assert Run(EMPTY, ops) == Apply(c, last);
      RunInv(init);
      AgeStep(c, last, j);
      AgeStep(c, last, k);
      hide Apply, Inv, Uses;
      if !Uses(last, j) && !Uses(last, k) { AgesFollowUses(init, j, k); }
    }
  }

  /** A Put makes room at the cost of entries used less recently than every one it keeps. */
  lemma EvictsLeastRecentlyUsed(ops: seq<Op>, op: Op, gone: string, kept: string)
    requires op.Put? && gone != op.key && kept != op.key
    requires var m := Run(EMPTY, ops).entries; gone in m && m[gone].expires > op.now
    requires gone !in Run(EMPTY, ops + [op]).entries && kept in Run(EMPTY, ops + [op]).entries
    ensures kept in Run(EMPTY, ops).entries && LastUse(ops, gone) < LastUse(ops, kept)
  {
    var c := Run(EMPTY, ops);
    assert (ops + [op])[..|ops|] == ops;
    assert Run(EMPTY, ops + [op]) == Apply(c, op);
    RunInv(ops);
    hide Run, Total, Evict, Inv;
    KeptIsYounger(c, op, gone, kept);
    AgesFollowUses(ops, gone, kept);
  }

  lemma KeptIsYounger(c: Cache, op: Op, gone: string, kept: string)
    requires Inv(c) && op.Put? && gone != op.key && kept != op.key
    requires gone in c.entries && c.entries[gone].expires > op.now
    requires gone !in Apply(c, op).entries && kept in Apply(c, op).entries
    ensures kept in c.entries && c.entries[gone].used < c.entries[kept].used
  {
    hide Total, Evict;
    assert op.cost <= MAX_ENTRY_BYTES;
    var m := Live(c.entries, op.now) - {op.key};
    EvictIsYoungest(m, op.cost);
    PutResult(c, op);
    assert kept in Evict(m, op.cost);
  }

  // --------------------------------------------------------------------- search keys

  /** The same character, or the same letter in another case. */
  predicate SameLetter(a: char, b: char) {
    a == b || exists i :: 0 <= i < 26 && ((a == CAPITALS[i] && b == SMALL[i]) || (a == SMALL[i] && b == CAPITALS[i]))
  }

  lemma LowerCapital(i: nat)
    requires i < 26
    ensures Lower(CAPITALS[i]) == SMALL[i] == Lower(SMALL[i])
  {
  }

  lemma LowerIs(c: char)
    ensures if 'A' <= c <= 'Z' then c == CAPITALS[c as int - 65] && Lower(c) == SMALL[c as int - 65] else Lower(c) == c
  {
  }

  lemma SmallIsNoCapital(i: nat)
    requires i < 26
    ensures !('A' <= SMALL[i] <= 'Z')
  {
  }

  lemma LowerJoinsCases(a: char, b: char)
    ensures Lower(a) == Lower(b) <==> SameLetter(a, b)
  {
    LowerIs(a);
    LowerIs(b);
    if SameLetter(a, b) && a != b {
      var i :| 0 <= i < 26 && ((a == CAPITALS[i] && b == SMALL[i]) || (a == SMALL[i] && b == CAPITALS[i]));
      LowerCapital(i);
    }
    if Lower(a) == Lower(b) && a != b {
      var i := if 'A' <= a <= 'Z' then a as int - 65 else b as int - 65;
      SmallIsNoCapital(i);
    }
  }

  lemma {:induction false} LowerAllAt(s: string)
    ensures |LowerAll(s)| == |s| && forall i :: 0 <= i < |s| ==> LowerAll(s)[i] == Lower(s[i])
  {
    if s != "" {
      LowerAllAt(s[1..]);
      assert forall i :: 1 <= i < |s| ==> s[i] == s[1..][i - 1];
    }
  }

  /** Two hashes share a search key exactly when they differ in the case of letters at most. */
  lemma SearchKeyIgnoresCase(a: string, b: string)
    ensures SearchCacheKey(a) == SearchCacheKey(b) <==>
            |a| == |b| && forall i :: 0 <= i < |a| ==> SameLetter(a[i], b[i])
  {
    hide Lower, LowerAll, SameLetter;
    LowerAllAt(a);
    LowerAllAt(b);
    assert LowerAll(a) == SearchCacheKey(a)[2..] && LowerAll(b) == SearchCacheKey(b)[2..];
    forall i | 0 <= i < |a| && i < |b| ensures Lower(a[i]) == Lower(b[i]) <==> SameLetter(a[i], b[i]) {
      LowerJoinsCases(a[i], b[i]);
    }
    if SearchCacheKey(a) == SearchCacheKey(b) {
      assert forall i :: 0 <= i < |a| ==> LowerAll(a)[i] == LowerAll(b)[i];
    }
    if |a| == |b| && forall i :: 0 <= i < |a| ==> SameLetter(a[i], b[i]) {
      assert LowerAll(a) == LowerAll(b);
    }
  }
}
