/**
 The lyric cache as it runs: three fields changed in place under a lock. Every method is
 tied to the value model, and the byte counter to the entries it counts.
 */
module LyricCacheStore {
  import opened LyricCacheModel
  import opened Wrappers

  /** The capacities of the strings an entry owns, as the string library reports them. */
  datatype Capacities = Capacities(serialized: nat, key: nat, lyricId: nat, accessKey: nat)

  class LyricCache {
    var entries: map<string, Entry>
    var bytes: nat
    var sequence: nat
    /** The size of the entry structure. */
    const entrySize: nat

    ghost function Value(): Cache
      reads this
    {
      Cache(entries, sequence)
    }

    /** The byte counter is the sum of the entry costs, and both budgets hold. */
    ghost predicate Valid()
      reads this
    {
      Inv(Value()) && bytes == Total(entries)
    }

    constructor (entrySize: nat)
      ensures Valid() && Value() == EMPTY && this.entrySize == entrySize
    {
      this.entrySize := entrySize;
      entries, bytes, sequence := map[], 0, 0;
    }

    method Erase(key: string)
      requires key in entries && bytes == Total(entries)
      modifies `entries, `bytes
      ensures entries == old(entries) - {key} && bytes == Total(entries)
    {
      TotalRemove(entries, key);
      bytes := bytes - entries[key].bytes;
      entries := entries - {key};
    }

    method Prune(now: int)
      requires bytes == Total(entries)
      modifies `entries, `bytes
      ensures entries == Live(old(entries), now) && bytes == Total(entries)
    {
      hide Total;
      var rest := entries.Keys;
      while rest != {}
        invariant rest <= entries.Keys && bytes == Total(entries)
        invariant Part(entries, old(entries))
        invariant forall k :: k in old(entries) ==>
                    (k in entries <==> k in rest || old(entries)[k].expires > now)
        decreases |rest|
      {
        var k :| k in rest;
        if entries[k].expires <= now { Erase(k); }
        rest := rest - {k};
      }
    }

    method Get(key: string, now: int) returns (answer: Option<Content>)
      requires Valid()
      modifies this
      ensures Valid() && Value() == Apply(old(Value()), LyricCacheModel.Get(key, now))
      ensures answer == Answer(old(Value()), key, now)
    {
      GetInv(Value(), LyricCacheModel.Get(key, now));
      GetIs(Value(), key, now);
      hide Total, Inv, Apply, Live, Answer;
      Prune(now);
      if key !in entries { return None; }
      answer := Touch(key);
    }

    /** A hit becomes the most recently used entry. */
    method Touch(key: string) returns (answer: Option<Content>)
      requires key in entries && bytes == Total(entries)
      modifies `entries, `sequence
      ensures Value() == Touched(old(Value()), key) && bytes == Total(entries)
      ensures answer == Some(Served(old(entries)[key].content))
    {
      hide Total;
      sequence := sequence + 1;
      TotalRemove(entries, key);
      var e := entries[key].(used := sequence);
      TotalAdd(entries - {key}, key, e);
      assert (entries - {key})[key := e] == entries[key := e];
      entries := entries[key := e];
      var out := e.content;
      out := out.(diagnostics := Diagnostics(true, out.diagnostics.durationMs, out.diagnostics.httpAttempts));
      out := out.(diagnostics := out.diagnostics.(durationMs := 0));
      return Some(out.(diagnostics := out.diagnostics.(httpAttempts := 0)));
    }

    /** `std::min_element` over the last uses, in whatever order the map is walked. */
    method FindOldest() returns (oldest: string)
      requires entries != map[]
      ensures Oldest(entries, oldest)
    {
      oldest :| oldest in entries;
      var rest := entries.Keys - {oldest};
      while rest != {}
        invariant rest <= entries.Keys && oldest in entries
        invariant forall k :: k in entries && k !in rest ==> entries[oldest].used <= entries[k].used
        decreases |rest|
      {
        var k :| k in rest;
        if entries[k].used < entries[oldest].used { oldest := k; }
        rest := rest - {k};
      }
    }

    /** The cost is what the strings own, with a conservative overhead for the container's node. */
    method Put(key: string, content: Content, pair: Pair, expires: int, now: int, capacities: Capacities)
      requires Valid()
      modifies this
      ensures Valid()
      ensures var owned := capacities.serialized + capacities.key + capacities.lyricId + capacities.accessKey;
              Value() == Apply(old(Value()), LyricCacheModel.Put(key, content, pair, expires, now,
                                                                 owned + entrySize + 64))
    {
      var cost := capacities.serialized + capacities.key + capacities.lyricId;
      cost := cost + capacities.accessKey + entrySize + 64;
      if cost > MAX_ENTRY_BYTES { return; }
      PutInv(Value(), LyricCacheModel.Put(key, content, pair, expires, now, cost));
      PutIs(Value(), key, content, pair, expires, now, cost);
      LiveDistinct(Value(), now, key);
      hide Total, Evict, Inv, Fits, Distinct, Apply, Live, Added;
      Store(key, Entry(content, pair, expires, 0, cost), now);
    }

    /** The entry is stored among the live ones, in place of one with its key, once there is room. */
    method Store(key: string, e: Entry, now: int)
      requires bytes == Total(entries) && Distinct(Live(entries, now) - {key})
      modifies this
      ensures Value() == Added(Evict(Live(old(entries), now) - {key}, e.bytes), old(sequence), key, e)
      ensures bytes == Total(entries)
    {
      EvictIsPart(Live(entries, now) - {key}, e.bytes);
      ghost var m := Live(entries, now) - {key};
      hide Total, Evict, Fits, Distinct, Live, Added;
      Prune(now);
      if key in entries { Erase(key); }
      assert entries == m;
      MakeRoom(e.bytes);
      Add(key, e);
    }

    method MakeRoom(cost: nat)
      requires bytes == Total(entries) && Distinct(entries)
      modifies `entries, `bytes
      ensures bytes == Total(entries) && entries == Evict(old(entries), cost)
    {
      hide Total, Evict, Fits, Distinct;
      while entries != map[] && (|entries| >= MAX_ENTRIES || bytes + cost > MAX_BYTES)
        invariant bytes == Total(entries)
        invariant Distinct(entries) && Evict(entries, cost) == Evict(old(entries), cost)
        decreases |entries|
      {
        var k := FindOldest();
        OneOldest(entries, cost, k);
        Erase(k);
      }
      EvictDone(entries, cost);
    }

    method Add(key: string, e: Entry)
      requires key !in entries && bytes == Total(entries)
      modifies this
      ensures Value() == Added(old(entries), old(sequence), key, e) && bytes == Total(entries)
    {
      hide Total;
      TotalAdd(entries, key, e.(used := sequence + 1));
      sequence := sequence + 1;
      entries := entries[key := e.(used := sequence)];
      bytes := bytes + e.bytes;
    }

    method InvalidateSearch(pair: Pair)
      requires Valid()
      modifies `entries, `bytes
      ensures Valid() && Value() == Apply(old(Value()), LyricCacheModel.InvalidateSearch(pair))
    {
      StepInv(Value(), LyricCacheModel.InvalidateSearch(pair));
      InvalidateIs(Value(), pair);
      hide Total, Inv, Apply, Without, IsSearch, Lists, Doomed;
      EraseListing(pair);
    }

    method EraseListing(pair: Pair)
      requires bytes == Total(entries)
      modifies `entries, `bytes
      ensures entries == Without(old(entries), pair) && bytes == Total(entries)
    {
      hide Total, Without, IsSearch, Lists, Doomed;
      var rest := entries.Keys;
      while rest != {}
        invariant rest <= entries.Keys && bytes == Total(entries)
        invariant forall k :: k in entries ==> k in old(entries) && entries[k] == old(entries)[k]
        invariant forall k :: k in old(entries) ==>
                    (k in entries <==> k in rest || !Doomed(k, old(entries)[k], pair))
        decreases |rest|
      {
        var k :| k in rest;
        ListsIs(k, entries[k], pair);
        var matches := entries[k].pair == pair;
        if !matches && IsSearch(k) {
          matches := ListsCandidate(entries[k].content.candidates, pair);
        }
        if IsSearch(k) && matches { Erase(k); }
        rest := rest - {k};
      }
      WithoutIs(entries, old(entries), pair);
    }
  }

  method ListsCandidate(candidates: seq<Pair>, pair: Pair) returns (found: bool)
    ensures found <==> pair in candidates
  {
    var i := 0;
    while i < |candidates|
      invariant i <= |candidates| && pair !in candidates[..i]
    {
      if candidates[i] == pair { return true; }
      i := i + 1;
    }
    return false;
  }

  function Touched(c: Cache, key: string): Cache
    requires key in c.entries
  {
    Cache(c.entries[key := c.entries[key].(used := c.sequence + 1)], c.sequence + 1)
  }

  lemma GetIs(c: Cache, key: string, now: int)
    ensures var live := Live(c.entries, now);
            && Apply(c, LyricCacheModel.Get(key, now)) ==
                 (if key in live then Touched(c.(entries := live), key) else c.(entries := live))
            && Answer(c, key, now) == if key in live then Some(Served(live[key].content)) else None
  {
  }

  lemma PutIs(c: Cache, key: string, content: Content, pair: Pair, expires: int, now: int, cost: nat)
    requires cost <= MAX_ENTRY_BYTES
    ensures Apply(c, LyricCacheModel.Put(key, content, pair, expires, now, cost)) ==
            Added(Evict(Live(c.entries, now) - {key}, cost), c.sequence, key, Entry(content, pair, expires, 0, cost))
  {
  }

  function Added(m: map<string, Entry>, sequence: nat, key: string, e: Entry): Cache {
    Cache(m[key := e.(used := sequence + 1)], sequence + 1)
  }

  lemma InvalidateIs(c: Cache, pair: Pair)
    ensures Apply(c, LyricCacheModel.InvalidateSearch(pair)) == c.(entries := Without(c.entries, pair))
  {
  }

  predicate Doomed(key: string, e: Entry, pair: Pair) { IsSearch(key) && Lists(e, pair) }

  lemma ListsIs(key: string, e: Entry, pair: Pair)
    ensures Doomed(key, e, pair) <==> IsSearch(key) && (e.pair == pair || pair in e.content.candidates)
  {
  }

  lemma WithoutIs(r: map<string, Entry>, m: map<string, Entry>, pair: Pair)
    requires forall k :: k in r ==> k in m && r[k] == m[k]
    requires forall k :: k in m ==> (k in r <==> !Doomed(k, m[k], pair))
    ensures r == Without(m, pair)
  {
  }

  lemma LiveDistinct(c: Cache, now: int, key: string)
    requires Inv(c)
    ensures Distinct(Live(c.entries, now) - {key})
  {
  }

  /** With distinct ages the oldest entry is one, so the loop evicts what the model does. */
  lemma OneOldest(m: map<string, Entry>, cost: nat, k: string)
    requires Distinct(m) && m != map[] && Oldest(m, k)
    requires |m| >= MAX_ENTRIES || Total(m) + cost > MAX_BYTES
    ensures Evict(m, cost) == Evict(m - {k}, cost) && Distinct(m - {k})
  {
    hide Total, Evict;
    var j := EvictStep(m, cost);
    assert m[j].used == m[k].used;
  }

  lemma EvictDone(m: map<string, Entry>, cost: nat)
    requires m == map[] || (|m| < MAX_ENTRIES && Total(m) + cost <= MAX_BYTES)
    ensures Evict(m, cost) == m
  {
  }
}
