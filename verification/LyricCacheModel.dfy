/**
 The lyric cache as a value: what every operation makes of it, and what that means over
 whole runs. The class that updates the same fields in place is in LyricCache.dfy.
 */
module LyricCacheModel {
  import opened Decimal
  import opened Wrappers

  const MAX_ENTRIES: nat := 128
  const MAX_BYTES: nat := 2 * 1024 * 1024
  const MAX_ENTRY_BYTES: nat := 128 * 1024

  datatype Pair = Pair(id: string, accessKey: string)

  datatype Diagnostics = Diagnostics(cacheHit: bool, durationMs: nat, httpAttempts: nat)

  /** A serialized result: its text, the candidates it lists when it is a search, how it was got. */
  datatype Content = Content(text: string, candidates: seq<Pair>, diagnostics: Diagnostics)

  /** A stored result as it is handed out: a hit that took no time and no request. */
  function Served(c: Content): Content { c.(diagnostics := Diagnostics(true, 0, 0)) }

  datatype Entry = Entry(content: Content, pair: Pair, expires: int, used: nat, bytes: nat)

  datatype Cache = Cache(entries: map<string, Entry>, sequence: nat)

  datatype Op =
    | Put(key: string, content: Content, pair: Pair, expires: int, now: int, cost: nat)
    | Get(key: string, now: int)
    | InvalidateSearch(pair: Pair)

  // ------------------------------------------------------------------ the bytes held

  ghost function Total(m: map<string, Entry>): nat
    decreases |m|
  {
    if m == map[] then 0 else
      var k :| k in m;
      m[k].bytes + Total(m - {k})
  }

  lemma {:induction false} TotalRemove(m: map<string, Entry>, k: string)
    requires k in m
    ensures Total(m) == m[k].bytes + Total(m - {k})
    decreases |m|
  {
    var j :| j in m && Total(m) == m[j].bytes + Total(m - {j});
    if j != k {
      TotalRemove(m - {j}, k);
      TotalRemove(m - {k}, j);
      assert m - {j} - {k} == m - {k} - {j};
    }
  }

  lemma TotalAdd(m: map<string, Entry>, k: string, e: Entry)
    requires k !in m
    ensures Total(m[k := e]) == Total(m) + e.bytes
  {
    TotalRemove(m[k := e], k);
    assert m[k := e] - {k} == m;
  }

  lemma {:induction false} TotalShrinks(s: map<string, Entry>, m: map<string, Entry>)
    requires Part(s, m)
    ensures Total(s) <= Total(m) && |s| <= |m|
    decreases |m|
  {
    if s != m {
      var k :| k in m && k !in s;
      TotalRemove(m, k);
      TotalShrinks(s, m - {k});
    }
  }

  /** `s` is some of the entries of `m`. */
  ghost predicate Part(s: map<string, Entry>, m: map<string, Entry>) {
    forall k :: k in s ==> k in m && s[k] == m[k]
  }

  // -------------------------------------------------------------------- operations

  predicate Fits(size: nat, bytes: nat, cost: nat) {
    size < MAX_ENTRIES && bytes + cost <= MAX_BYTES
  }

  function Live(m: map<string, Entry>, now: int): map<string, Entry> {
    map k | k in m && m[k].expires > now :: m[k]
  }

  ghost predicate Oldest(m: map<string, Entry>, k: string) {
    k in m && forall j :: j in m ==> m[k].used <= m[j].used
  }

  lemma {:induction false} OldestExists(m: map<string, Entry>)
    requires m != map[]
    ensures exists k :: Oldest(m, k)
    decreases |m|
  {
    var k :| k in m;
    assert forall j :: j in m ==> j == k || j in m - {k};
    if m - {k} == map[] {
      assert forall j :: j in m ==> j == k || j in (m - {k}).Keys;
      assert Oldest(m, k);
    } else {
      OldestExists(m - {k});
      var o :| Oldest(m - {k}, o);
      assert Oldest(m, if m[o].used <= m[k].used then o else k);
    }
  }

  /** The least recently used entries go, one at a time, until there is room. */
  ghost function Evict(m: map<string, Entry>, cost: nat): map<string, Entry>
    decreases |m|
  {
    if m == map[] || Fits(|m|, Total(m), cost) then m
    else
      OldestExists(m);
      var k :| Oldest(m, k);
      Evict(m - {k}, cost)
  }

  predicate IsSearch(key: string) { |key| >= 2 && key[..2] == "S:" }

  predicate Lists(e: Entry, pair: Pair) { e.pair == pair || pair in e.content.candidates }

  function Without(m: map<string, Entry>, pair: Pair): map<string, Entry> {
    map k | k in m && !(IsSearch(k) && Lists(m[k], pair)) :: m[k]
  }

  ghost function Apply(c: Cache, op: Op): Cache {
    match op
    case Put(key, content, pair, expires, now, cost) =>
      if cost > MAX_ENTRY_BYTES then c
      else
        Cache(Evict(Live(c.entries, now) - {key}, cost)
                [key := Entry(content, pair, expires, c.sequence + 1, cost)], c.sequence + 1)
    case Get(key, now) =>
      var live := Live(c.entries, now);
      if key !in live then c.(entries := live)
      else Cache(live[key := live[key].(used := c.sequence + 1)], c.sequence + 1)
    case InvalidateSearch(pair) => c.(entries := Without(c.entries, pair))
  }

  /** What `Get` answers. */
  function Answer(c: Cache, key: string, now: int): Option<Content> {
    if key in c.entries && c.entries[key].expires > now then Some(Served(c.entries[key].content)) else None
  }

  // --------------------------------------------------------------------- invariant

  ghost predicate Distinct(m: map<string, Entry>) {
    forall j, k :: j in m && k in m && m[j].used == m[k].used ==> j == k
  }

  ghost predicate Inv(c: Cache) {
    && Distinct(c.entries)
    && (forall k :: k in c.entries ==> c.entries[k].used <= c.sequence && c.entries[k].bytes <= MAX_ENTRY_BYTES)
    && |c.entries| <= MAX_ENTRIES
    && Total(c.entries) <= MAX_BYTES
  }

  /** What survives eviction: entries of `m`, no older than any that went. */
  ghost predicate Youngest(s: map<string, Entry>, m: map<string, Entry>) {
    && Part(s, m)
    && forall j, k :: j in m && j !in s && k in s ==> m[j].used < m[k].used
  }

  /** One turn of the eviction loop. */
  lemma EvictStep(m: map<string, Entry>, cost: nat) returns (k: string)
    requires m != map[] && !Fits(|m|, Total(m), cost)
    ensures Oldest(m, k) && Evict(m, cost) == Evict(m - {k}, cost)
  {
    hide Total, Fits;
    OldestExists(m);
    k :| Oldest(m, k) && Evict(m, cost) == Evict(m - {k}, cost);
  }

  lemma {:induction false} EvictIsYoungest(m: map<string, Entry>, cost: nat)
    requires Distinct(m)
    ensures Youngest(Evict(m, cost), m)
    decreases |m|
  {
    if m == map[] || Fits(|m|, Total(m), cost) {
      hide Total, Fits;
    } else {
      var k := EvictStep(m, cost);
      hide Total, Evict, Fits;
      EvictIsYoungest(m - {k}, cost);
      OldestGoes(Evict(m - {k}, cost), m, k);
    }
  }

  lemma OldestGoes(s: map<string, Entry>, m: map<string, Entry>, k: string)
    requires Distinct(m) && Oldest(m, k) && Youngest(s, m - {k})
    ensures Youngest(s, m)
  {
    forall j, i | j in m && j !in s && i in s
      ensures m[j].used < m[i].used
    {
      if j != k { assert j in m - {k}; }
    }
  }

  lemma {:induction false} EvictMakesRoom(m: map<string, Entry>, cost: nat)
    requires cost <= MAX_ENTRY_BYTES
    ensures Fits(|Evict(m, cost)|, Total(Evict(m, cost)), cost)
    decreases |m|
  {
    if m == map[] {
      assert Total(m) == 0;
    } else if !Fits(|m|, Total(m), cost) {
      var k := EvictStep(m, cost);
      hide Total, Evict, Fits;
      EvictMakesRoom(m - {k}, cost);
    }
  }

  lemma {:induction false} EvictKeepsMost(m: map<string, Entry>, cost: nat, s: map<string, Entry>)
    requires Distinct(m) && Youngest(s, m) && Fits(|s|, Total(s), cost)
    ensures Part(s, Evict(m, cost))
    decreases |m|
  {
    if m != map[] && !Fits(|m|, Total(m), cost) {
      var k := EvictStep(m, cost);
      hide Total, Evict, Fits;
      KeepsWhole(s, m, k);
      EvictKeepsMost(m - {k}, cost, s);
    }
  }

  /** A youngest-first selection that has the oldest entry has them all. */
  lemma KeepsWhole(s: map<string, Entry>, m: map<string, Entry>, k: string)
    requires Youngest(s, m) && Oldest(m, k) && s != m
    ensures k !in s && Youngest(s, m - {k})
  {
    if k in s { AllKept(s, m, k); }
  }

  lemma AllKept(s: map<string, Entry>, m: map<string, Entry>, k: string)
    requires Youngest(s, m) && Oldest(m, k) && k in s
    ensures s == m
  {
    assert forall j :: j in m ==> j in s;
  }

  /**
   Eviction ends with room for the new entry, evicts only entries older than every survivor,
   and not one more than it must: every youngest-first selection with room is kept whole.
   */
  lemma EvictionIsMinimal(m: map<string, Entry>, cost: nat)
    requires Distinct(m) && cost <= MAX_ENTRY_BYTES
    ensures Youngest(Evict(m, cost), m)
    ensures Fits(|Evict(m, cost)|, Total(Evict(m, cost)), cost)
    ensures forall s :: Youngest(s, m) && Fits(|s|, Total(s), cost) ==> Part(s, Evict(m, cost))
  {
    hide Total, Evict, Fits;
    EvictIsYoungest(m, cost);
    EvictMakesRoom(m, cost);
    forall s | Youngest(s, m) && Fits(|s|, Total(s), cost)
      ensures Part(s, Evict(m, cost))
    {
      EvictKeepsMost(m, cost, s);
    }
  }

  lemma {:induction false} EvictIsPart(m: map<string, Entry>, cost: nat)
    ensures Part(Evict(m, cost), m)
    decreases |m|
  {
    if m != map[] && !Fits(|m|, Total(m), cost) {
      var k := EvictStep(m, cost);
      hide Total, Evict, Fits;
      EvictIsPart(m - {k}, cost);
    } else {
      hide Total, Fits;
    }
  }

  lemma PartInv(s: map<string, Entry>, c: Cache)
    requires Inv(c) && Part(s, c.entries)
    ensures Inv(c.(entries := s))
  {
    TotalShrinks(s, c.entries);
  }

  /** An entry added under a new key with the next age. */
  lemma AddInv(c: Cache, key: string, e: Entry)
    requires Inv(c) && key !in c.entries && e.used == c.sequence + 1 && e.bytes <= MAX_ENTRY_BYTES
    requires Fits(|c.entries|, Total(c.entries), e.bytes)
    ensures Inv(Cache(c.entries[key := e], c.sequence + 1))
  {
    TotalAdd(c.entries, key, e);
    hide Total;
  }

  lemma LivePart(m: map<string, Entry>, now: int, key: string)
    ensures Part(Live(m, now) - {key}, m)
  {
  }

  lemma PartOfPart(r: map<string, Entry>, m: map<string, Entry>, all: map<string, Entry>, key: string)
    requires Part(r, m) && Part(m, all) && key !in m
    ensures Part(r, all) && key !in r
  {
  }

  lemma PutResult(c: Cache, op: Op)
    requires op.Put? && op.cost <= MAX_ENTRY_BYTES
    ensures Apply(c, op) ==
            Cache(Evict(Live(c.entries, op.now) - {op.key}, op.cost)
                    [op.key := Entry(op.content, op.pair, op.expires, c.sequence + 1, op.cost)], c.sequence + 1)
  {
    hide Total, Evict, Fits, Live;
  }

  lemma PutInv(c: Cache, op: Op)
    requires Inv(c) && op.Put? && op.cost <= MAX_ENTRY_BYTES
    ensures Inv(Apply(c, op))
  {
    hide Total, Evict, Fits, Live, Inv, Apply, Part;
    var m := Live(c.entries, op.now) - {op.key};
    LivePart(c.entries, op.now, op.key);
    PartInv(m, c);
    EvictIsPart(m, op.cost);
    EvictMakesRoom(m, op.cost);
    var r := Evict(m, op.cost);
    PartOfPart(r, m, c.entries, op.key);
    PartInv(r, c);
    PutResult(c, op);
    AddInv(c.(entries := r), op.key, Entry(op.content, op.pair, op.expires, c.sequence + 1, op.cost));
  }

  lemma GetInv(c: Cache, op: Op)
    requires Inv(c) && op.Get?
    ensures Inv(Apply(c, op))
  {
    hide Total, Live, Inv, Apply, Part;
    var live := Live(c.entries, op.now);
    LiveIsPart(c.entries, op.now);
    PartInv(live, c);
    GetResult(c, op);
    if op.key in live { TouchInv(c.(entries := live), op.key); }
  }

  lemma LiveIsPart(m: map<string, Entry>, now: int)
    ensures Part(Live(m, now), m)
  {
  }

  lemma GetResult(c: Cache, op: Op)
    requires op.Get?
    ensures var live := Live(c.entries, op.now);
            Apply(c, op) ==
              if op.key !in live then c.(entries := live)
              else Cache(live[op.key := live[op.key].(used := c.sequence + 1)], c.sequence + 1)
  {
    hide Live;
  }

  lemma TouchInv(c: Cache, key: string)
    requires Inv(c) && key in c.entries
    ensures Inv(Cache(c.entries[key := c.entries[key].(used := c.sequence + 1)], c.sequence + 1))
  {
    hide Total;
    var e := c.entries[key].(used := c.sequence + 1);
    var rest := c.entries - {key};
    TotalRemove(c.entries, key);
    PartInv(rest, c);
    assert c.entries == rest[key := c.entries[key]];
    AddInv(Cache(rest, c.sequence), key, e);
    assert rest[key := e] == c.entries[key := e];
  }

  /** Whatever is asked of the cache, both budgets hold and ages stay distinct. */
  lemma StepInv(c: Cache, op: Op)
    requires Inv(c)
    ensures Inv(Apply(c, op))
  {
    match op
    case Put(_, _, _, _, _, cost) => if cost <= MAX_ENTRY_BYTES { PutInv(c, op); }
    case Get(_, _) => GetInv(c, op);
    case InvalidateSearch(pair) => PartInv(Without(c.entries, pair), c);
  }

  // --------------------------------------------------------------------------- runs

  ghost function Run(c: Cache, ops: seq<Op>): Cache {
    if ops == [] then c else Apply(Run(c, ops[..|ops| - 1]), ops[|ops| - 1])
  }

  const EMPTY: Cache := Cache(map[], 0)

  lemma {:induction false} RunInv(ops: seq<Op>)
    ensures Inv(Run(EMPTY, ops))
  {
    if ops != [] {
      RunInv(ops[..|ops| - 1]);
      StepInv(Run(EMPTY, ops[..|ops| - 1]), ops[|ops| - 1]);
    } else {
      assert Total(map[]) == 0;
    }
  }

  predicate PutsKey(op: Op, key: string) { op.Put? && op.key == key }

  predicate Accepted(op: Op) { op.Put? && op.cost <= MAX_ENTRY_BYTES }

  /** The last Put for `key` in the run, of those small enough to be taken. */
  function LastAccepted(ops: seq<Op>, key: string): (r: Option<Op>)
    ensures r.Some? ==> PutsKey(r.value, key) && Accepted(r.value)
  {
    if ops == [] then None
    else
      var last := ops[|ops| - 1];
      if PutsKey(last, key) && Accepted(last) then Some(last) else LastAccepted(ops[..|ops| - 1], key)
  }

  /** The last Put for `key` in the run. */
  function LastPut(ops: seq<Op>, key: string): (r: Option<Op>)
    ensures r.Some? ==> PutsKey(r.value, key)
  {
    if ops == [] then None
    else
      var last := ops[|ops| - 1];
      if PutsKey(last, key) then Some(last) else LastPut(ops[..|ops| - 1], key)
  }

  /** An entry holds what the last accepted Put for its key stored. */
  lemma {:induction false} EntryIsLastAccepted(ops: seq<Op>, key: string)
    requires key in Run(EMPTY, ops).entries
    ensures var e, p := Run(EMPTY, ops).entries[key], LastAccepted(ops, key);
            p.Some? && e.content == p.value.content && e.pair == p.value.pair
            && e.expires == p.value.expires && e.bytes == p.value.cost
  {
    if ops != [] {
      var init, last := ops[..|ops| - 1], ops[|ops| - 1];
      var c := Run(EMPTY, init);
      if last.Put? && Accepted(last) {
        EvictIsPart(Live(c.entries, last.now) - {last.key}, last.cost);
      }
      if !(PutsKey(last, key) && Accepted(last)) {
        EntryIsLastAccepted(init, key);
      }
    }
  }

  /** A hit is the last accepted Put for its key, and that Put has not expired. */
  lemma HitIsLastAcceptedPut(ops: seq<Op>, key: string, now: int)
    requires Answer(Run(EMPTY, ops), key, now).Some?
    ensures LastAccepted(ops, key).Some?
    ensures Answer(Run(EMPTY, ops), key, now).value == Served(LastAccepted(ops, key).value.content)
    ensures LastAccepted(ops, key).value.expires > now
  {
    EntryIsLastAccepted(ops, key);
  }

  /** The last Put is the last accepted one exactly when it was small enough to be taken. */
  lemma {:induction false} LastPutIsAccepted(ops: seq<Op>, key: string)
    requires LastPut(ops, key).Some?
    ensures Accepted(LastPut(ops, key).value) ==> LastAccepted(ops, key) == LastPut(ops, key)
    ensures LastAccepted(ops, key) == LastPut(ops, key) ==> Accepted(LastPut(ops, key).value)
  {
    var last := ops[|ops| - 1];
    if !PutsKey(last, key) { LastPutIsAccepted(ops[..|ops| - 1], key); }
  }

  /**
   An oversized Put is dropped and the value it was to replace is still served: a hit need
   not be the last Put.
   */
  lemma OversizedPutLeavesOldValue(key: string, older: Content, newer: Content, pair: Pair, cost: nat, large: nat)
    requires older.text != newer.text && cost <= MAX_ENTRY_BYTES < large
    ensures var ops := [Put(key, older, pair, 10, 0, cost), Put(key, newer, pair, 10, 0, large)];
            && Answer(Run(EMPTY, ops), key, 5) == Some(Served(older)) && Served(older) != Served(newer)
            && LastPut(ops, key).value.content == newer
  {
    var small, big := Put(key, older, pair, 10, 0, cost), Put(key, newer, pair, 10, 0, large);
    var ops := [small, big];
    assert ops[..1] == [small] && [small][..0] == [];
    assert Run(EMPTY, [small]) == Apply(EMPTY, small);
    assert Run(EMPTY, ops) == Apply(Run(EMPTY, [small]), big);
  }

  /** No search entry of `m` lists `pair`. */
  ghost predicate Rejected(m: map<string, Entry>, pair: Pair) {
    forall k :: k in m && IsSearch(k) ==> !Lists(m[k], pair)
  }

  ghost predicate ListsAgain(op: Op, pair: Pair) {
    op.Put? && IsSearch(op.key) && (op.pair == pair || pair in op.content.candidates)
  }

  lemma RejectedStep(c: Cache, op: Op, pair: Pair)
    requires Rejected(c.entries, pair) && !ListsAgain(op, pair)
    ensures Rejected(Apply(c, op).entries, pair)
  {
    if op.Put? && Accepted(op) {
      EvictIsPart(Live(c.entries, op.now) - {op.key}, op.cost);
    }
  }

  /**
   Once a pair is rejected no search answer lists it, until a new search result that
   lists it is stored.
   */
  lemma {:induction false} RejectedPairStaysAway(c: Cache, pair: Pair, later: seq<Op>, key: string, now: int)
    requires forall i :: 0 <= i < |later| ==> !ListsAgain(later[i], pair)
    ensures Rejected(Run(Apply(c, InvalidateSearch(pair)), later).entries, pair)
    ensures var a := Answer(Run(Apply(c, InvalidateSearch(pair)), later), key, now);
            a.Some? && IsSearch(key) ==> pair !in a.value.candidates
  {
    if later != [] {
      var init := later[..|later| - 1];
      RejectedPairStaysAway(c, pair, init, key, now);
      RejectedStep(Run(Apply(c, InvalidateSearch(pair)), init), later[|later| - 1], pair);
    }
  }

  /** Rejecting a pair touches nothing but the search entries that list it. */
  lemma InvalidateTouchesOnlyListing(c: Cache, pair: Pair, key: string, now: int)
    ensures var d := Apply(c, InvalidateSearch(pair));
            Answer(d, key, now) ==
              if "S:" <= key && key in c.entries
                 && (c.entries[key].pair == pair || pair in c.entries[key].content.candidates)
              then None else Answer(c, key, now)
  {
  }

  // --------------------------------------------------------------------------- keys

  function Lower(c: char): char {
    if 'A' <= c <= 'Z' then c - 'A' + 'a' else c
  }

  function LowerAll(s: string): string {
    if s == "" then "" else [Lower(s[0])] + LowerAll(s[1..])
  }

  function SearchCacheKey(hash: string): string { "S:" + LowerAll(hash) }

  function DetailCacheKey(pair: Pair): string {
    "D:" + Numeral(|pair.id|) + ":" + pair.id + pair.accessKey
  }

  lemma KeyShape(p: Pair)
    ensures DetailCacheKey(p) == "D:" + (Numeral(|p.id|) + [':'] + (p.id + p.accessKey))
    ensures !IsSearch(DetailCacheKey(p))
  {
    hide Numeral;
    var m := Numeral(|p.id|);
    assert DetailCacheKey(p)[0] == 'D';
    assert DetailCacheKey(p) == "D:" + (m + [':'] + (p.id + p.accessKey));
  }

  lemma SameParts(a: string, b: string, c: string, d: string)
    requires a + b == c + d && |a| == |c|
    ensures a == c && b == d
  {
    assert a == (a + b)[..|a|] && c == (c + d)[..|c|];
    assert b == (a + b)[|a|..] && d == (c + d)[|c|..];
  }

  /** Different pairs have different detail keys, and no detail key is a search key. */
  lemma DetailKeysInjective(p: Pair, q: Pair)
    ensures DetailCacheKey(p) == DetailCacheKey(q) ==> p == q
    ensures !IsSearch(DetailCacheKey(p))
  {
    KeyShape(p);
    KeyShape(q);
    hide Numeral, DetailCacheKey, IsSearch;
    NumeralInjective(|p.id|, |q.id|);
    NumeralInjective(|q.id|, |p.id|);
    var m, n := Numeral(|p.id|), Numeral(|q.id|);
    if DetailCacheKey(p) == DetailCacheKey(q) {
      SameParts("D:", m + [':'] + (p.id + p.accessKey), "D:", n + [':'] + (q.id + q.accessKey));
      SameFrame(m, n, p.id + p.accessKey, q.id + q.accessKey);
      SameParts(p.id, p.accessKey, q.id, q.accessKey);
    }
  }

  lemma Framed(digits: string, rest: string)
    ensures (digits + [':'] + rest)[|digits|] == ':'
  {
  }

  lemma FirstColon(w: string, m: string, s: string)
    requires forall i :: 0 <= i < |m| ==> IsDigitChar(m[i])
    requires w == m + [':'] + s
    ensures |m| < |w| && !IsDigitChar(w[|m|]) && w[..|m|] == m && w[|m| + 1..] == s
    ensures forall i :: 0 <= i < |m| ==> IsDigitChar(w[i])
  {
    Framed(m, s);
    assert forall i :: 0 <= i < |m| ==> w[i] == m[i];
  }

  /** A run of digits ended by a colon is read back unambiguously. */
  lemma SameFrame(m: string, n: string, s: string, t: string)
    requires forall i :: 0 <= i < |m| ==> IsDigitChar(m[i])
    requires forall i :: 0 <= i < |n| ==> IsDigitChar(n[i])
    requires m + [':'] + s == n + [':'] + t
    ensures m == n && s == t
  {
    FirstColon(m + [':'] + s, m, s);
    FirstColon(m + [':'] + s, n, t);
  }

  /** Search keys are told apart from detail keys by their prefix. */
  lemma SearchKeysAreSearch(hash: string, pair: Pair)
    ensures IsSearch(SearchCacheKey(hash))
    ensures SearchCacheKey(hash) != DetailCacheKey(pair)
  {
    hide LowerAll, Numeral;
    DetailKeysInjective(pair, pair);
  }
}
