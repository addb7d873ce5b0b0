/**
 The in-memory response caches of ThrottledApiQueue: JavaScript Maps used with "evict the oldest
 entry when full, then set". A Map iterates in insertion order, and setting a present key keeps its place.
 Two callers that shared one in-flight call both store its result, so the same key can be stored twice.
 */
module ResponseCache {
  import opened Common

  type Key = int
  type Value = int

  datatype Entry = Entry(key: Key, value: Value)

  /** A Map in iteration order. */
  type Entries = seq<Entry>

  const EMBEDDING_CACHE_MAX := 500
  const LLM_CACHE_MAX := 200

  predicate DistinctKeys(m: Entries) { forall i, j | 0 <= i < j < |m| :: m[i].key != m[j].key }

  function Get(m: Entries, k: Key): Option<Value> {
    if m == [] then None else if m[|m| - 1].key == k then Some(m[|m| - 1].value) else Get(m[..|m| - 1], k)
  }

  /** Map.set */
  function Set(m: Entries, k: Key, v: Value): Entries {
    if m == [] then [Entry(k, v)]
    else if m[|m| - 1].key == k then m[..|m| - 1] + [Entry(k, v)]
    else if Get(m, k).None? then m + [Entry(k, v)]
    else Set(m[..|m| - 1], k, v) + [m[|m| - 1]]
  }

  function EvictIfFull(m: Entries, max: nat): Entries { if |m| >= max && m != [] then m[1..] else m }

  function Store(m: Entries, max: nat, e: Entry): Entries { Set(EvictIfFull(m, max), e.key, e.value) }

  function StoreAll(max: nat, history: seq<Entry>): Entries {
    if history == [] then [] else Store(StoreAll(max, history[..|history| - 1]), max, history[|history| - 1])
  }

  // ---------------------------------------------------------------- what Get and Set mean

  lemma {:induction false} GetFinds(m: Entries, k: Key)
    requires DistinctKeys(m)
    ensures Get(m, k).None? <==> forall i | 0 <= i < |m| :: m[i].key != k
    ensures forall i | 0 <= i < |m| && m[i].key == k :: Get(m, k) == Some(m[i].value)
  {
    if m != [] { GetFinds(m[..|m| - 1], k); }
  }

  /** Set replaces in place, or appends; nothing else moves. */
  lemma {:induction false} SetAt(m: Entries, k: Key, v: Value)
    requires DistinctKeys(m)
    ensures forall i | 0 <= i < |m| && m[i].key == k :: Set(m, k, v) == m[i := Entry(k, v)]
    ensures (forall i | 0 <= i < |m| :: m[i].key != k) ==> Set(m, k, v) == m + [Entry(k, v)]
    ensures DistinctKeys(Set(m, k, v))
  {
    GetFinds(m, k);
    if m != [] {
      var n := |m| - 1;
      SetAt(m[..n], k, v);
      forall i | 0 <= i < |m| && m[i].key == k ensures Set(m, k, v) == m[i := Entry(k, v)] {
        if i < n { assert m[..n][i].key == k; }
      }
    }
  }

  lemma SetInPlace(m: Entries, i: nat, e: Entry)
    requires DistinctKeys(m) && i < |m| && m[i].key == e.key
    ensures Set(m, e.key, e.value) == m[i := e] && DistinctKeys(m[i := e])
  {
    SetAt(m, e.key, e.value);
  }

  lemma SetOfNewKeyAppends(m: Entries, e: Entry)
    requires DistinctKeys(m) && forall i | 0 <= i < |m| :: m[i].key != e.key
    ensures Set(m, e.key, e.value) == m + [e]
  {
    SetAt(m, e.key, e.value);
  }

  /** A key's value is found wherever the key stands. */
  lemma GetAt(m: Entries, i: nat)
    requires DistinctKeys(m) && i < |m|
    ensures Get(m, m[i].key) == Some(m[i].value)
  {
    GetFinds(m, m[i].key);
  }

  lemma GetMissing(m: Entries, k: Key)
    requires DistinctKeys(m) && forall i | 0 <= i < |m| :: m[i].key != k
    ensures Get(m, k).None?
  {
    GetFinds(m, k);
  }

  lemma GetInUpdated(m: Entries, d: Entries, i: nat, e: Entry, k: Key)
    requires DistinctKeys(m) && DistinctKeys(d) && i < |m| && m[i].key == e.key && d == m[i := e]
    ensures Get(d, k) == if k == e.key then Some(e.value) else Get(m, k)
  {
    hide Get;
    if k == e.key {
      GetAt(d, i);
    } else if j :| 0 <= j < |m| && m[j].key == k {
      GetAt(d, j);
      GetAt(m, j);
    } else {
      GetMissing(d, k);
      GetMissing(m, k);
    }
  }

  lemma GetAppended(m: Entries, e: Entry, k: Key)
    ensures Get(m + [e], k) == if k == e.key then Some(e.value) else Get(m, k)
  {
    assert (m + [e])[..|m|] == m;
  }

  lemma GetAfterSet(m: Entries, e: Entry, k: Key)
    requires DistinctKeys(m)
    ensures Get(Set(m, e.key, e.value), k) == if k == e.key then Some(e.value) else Get(m, k)
  {
    hide Set, Get;
    var d := Set(m, e.key, e.value);
    SetAt(m, e.key, e.value);
    if i :| 0 <= i < |m| && m[i].key == e.key {
      GetInUpdated(m, d, i, e, k);
    } else {
      assert d == m + [e];
      GetAppended(m, e, k);
    }
  }

  lemma GetAfterEvict(m: Entries, max: nat, k: Key)
    requires DistinctKeys(m)
    ensures var kept := EvictIfFull(m, max); Get(kept, k).Some? ==> Get(kept, k) == Get(m, k)
  {
    hide Get;
    var kept := EvictIfFull(m, max);
    var shift := |m| - |kept|;
    assert forall i | 0 <= i < |kept| :: kept[i] == m[i + shift];
    if i :| 0 <= i < |kept| && kept[i].key == k {
      GetAt(kept, i);
      GetAt(m, i + shift);
    } else {
      GetMissing(kept, k);
    }
  }

  // ---------------------------------------------------------------- the cache

  class Cache {
    const max: nat
    var entries: Entries

    constructor (max: nat)
      ensures entries == [] && this.max == max
    {
      this.max, entries := max, [];
    }

    method Lookup(k: Key) returns (hit: Option<Value>)
      requires DistinctKeys(entries)
      ensures hit == Get(entries, k)
    {
      GetFinds(entries, k);
      hit := None;
      for i := 0 to |entries|
        invariant hit.None? ==> forall j | 0 <= j < i :: entries[j].key != k
        invariant hit.Some? ==> exists j | 0 <= j < i :: entries[j] == Entry(k, hit.value)
      {
        if entries[i].key == k { hit := Some(entries[i].value); }
      }
    }

    method Remember(k: Key, v: Value)
      requires DistinctKeys(entries)
      modifies this
      ensures entries == Store(old(entries), max, Entry(k, v))
    {
      if |entries| >= max && |entries| > 0 { entries := entries[1..]; }
      SetAt(entries, k, v);
      var i := 0;
      while i < |entries| && entries[i].key != k
        invariant 0 <= i <= |entries|
        invariant forall j | 0 <= j < i :: entries[j].key != k
      {
        i := i + 1;
      }
      entries := if i < |entries| then entries[i := Entry(k, v)] else entries + [Entry(k, v)];
    }
  }

  // ---------------------------------------------------------------- over every history of stores

  /** The value last stored under a key, if any. */
  function Latest(history: seq<Entry>, k: Key): Option<Value> {
    if history == [] then None
    else if history[|history| - 1].key == k then Some(history[|history| - 1].value)
    else Latest(history[..|history| - 1], k)
  }

  /** Whatever is stored in whatever order, the cache never exceeds its capacity, holds each key once,
      and a hit is always the value stored last under that key. */
  lemma {:induction false} CacheIsBoundedAndCurrent(max: nat, history: seq<Entry>)
    requires max > 0
    ensures var m := StoreAll(max, history);
            && |m| <= max && DistinctKeys(m)
            && forall k :: Get(m, k).Some? ==> Get(m, k) == Latest(history, k)
  {
    if history != [] {
      var n := |history| - 1;
      var e := history[n];
      CacheIsBoundedAndCurrent(max, history[..n]);
      var m := StoreAll(max, history[..n]);
      var kept := EvictIfFull(m, max);
      assert DistinctKeys(kept);
      SetAt(kept, e.key, e.value);
      hide Get, Set;
      forall k ensures Get(StoreAll(max, history), k).Some? ==> Get(StoreAll(max, history), k) == Latest(history, k) {
        GetAfterSet(kept, e, k);
        GetAfterEvict(m, max, k);
      }
    }
  }

  function Newest(max: nat, history: seq<Entry>): Entries {
    if |history| <= max then history else history[|history| - max..]
  }

  lemma EvictThenAppend(max: nat, older: seq<Entry>, e: Entry)
    requires max > 0
    ensures EvictIfFull(Newest(max, older), max) + [e] == Newest(max, older + [e])
  {
  }

  lemma NewestKeysDistinct(max: nat, older: seq<Entry>, e: Entry)
    requires DistinctKeys(older + [e])
    ensures var kept := EvictIfFull(Newest(max, older), max);
            DistinctKeys(older) && DistinctKeys(kept) && forall i | 0 <= i < |kept| :: kept[i].key != e.key
  {
    var all := older + [e];
    var kept := EvictIfFull(Newest(max, older), max);
    var from := |older| - |kept|;
    assert forall i | 0 <= i < |older| :: all[i] == older[i];
    assert kept == all[from..|older|];
    hide EvictIfFull, Newest;
    forall i | 0 <= i < |kept| ensures kept[i].key != e.key { assert kept[i] == all[from + i] && all[|older|] == e; }
    forall i, j | 0 <= i < j < |kept| ensures kept[i].key != kept[j].key {
      assert kept[i] == all[from + i] && kept[j] == all[from + j];
    }
  }

  /** If no key is stored twice, the cache holds exactly the most recent entries, oldest first. */
  lemma {:induction false} DistinctStoresKeepTheNewest(max: nat, history: seq<Entry>)
    requires max > 0 && DistinctKeys(history)
    ensures StoreAll(max, history) == Newest(max, history)
  {
    if history != [] {
      var older, e := history[..|history| - 1], history[|history| - 1];
      assert history == older + [e];
      NewestKeysDistinct(max, older, e);
      DistinctStoresKeepTheNewest(max, older);
      SetOfNewKeyAppends(EvictIfFull(Newest(max, older), max), e);
      EvictThenAppend(max, older, e);
    }
  }

  /** Exactly when a store makes a full cache smaller: its key is already present and not the oldest,
      which is what happens when deduplicated callers store the shared result again. */
  lemma StoreShrinksIff(max: nat, m: Entries, e: Entry)
    requires max > 0 && DistinctKeys(m) && |m| <= max
    ensures |Store(m, max, e)| < |m| <==> |m| == max && m[0].key != e.key && Get(m, e.key).Some?
  {
    var kept := EvictIfFull(m, max);
    SetAt(kept, e.key, e.value);
    GetFinds(m, e.key);
    GetFinds(kept, e.key);
    if |m| == max {
      assert forall i | 1 <= i < |m| :: m[i] == kept[i - 1];
    }
  }

  lemma StoreNewestAgain(max: nat, m: Entries)
    requires max >= 2 && |m| == max && DistinctKeys(m)
    ensures Store(m, max, m[max - 1]) == m[1..] && DistinctKeys(m[1..])
  {
    var kept := m[1..];
    SetInPlace(kept, max - 2, m[max - 1]);
    assert kept[max - 2 := m[max - 1]] == kept;
  }

  /** It does happen: filling a cache of any size above one and then storing its newest key again loses the oldest. */
  lemma RepeatedStoreShrinks(max: nat) returns (history: seq<Entry>)
    requires max >= 2
    ensures |StoreAll(max, history)| == max
    ensures |StoreAll(max, history + [history[|history| - 1]])| == max - 1
    ensures Get(StoreAll(max, history + [history[|history| - 1]]), history[0].key).None?
  {
    history := seq(max, i => Entry(i, 0));
    var again := history[max - 1];
    DistinctStoresKeepTheNewest(max, history);
    StoreNewestAgain(max, history);
    assert (history + [again])[..max] == history;
    hide Get, Set;
    assert forall i | 0 <= i < max - 1 :: history[1..][i].key == i + 1;
    GetMissing(history[1..], 0);
  }

  /** The two caches of the queue: never more than 500 embeddings and 200 answers, never a stale one, and
      either can lose an entry to a repeated store. */
  lemma QueueCaches(embeddings: seq<Entry>, answers: seq<Entry>, k: Key)
    ensures |StoreAll(EMBEDDING_CACHE_MAX, embeddings)| <= 500 && |StoreAll(LLM_CACHE_MAX, answers)| <= 200
    ensures var hit := Get(StoreAll(EMBEDDING_CACHE_MAX, embeddings), k); hit.Some? ==> hit == Latest(embeddings, k)
    ensures var hit := Get(StoreAll(LLM_CACHE_MAX, answers), k); hit.Some? ==> hit == Latest(answers, k)
    ensures exists h: seq<Entry>, e: Entry ::
              |StoreAll(EMBEDDING_CACHE_MAX, h)| == 500 && |StoreAll(EMBEDDING_CACHE_MAX, h + [e])| == 499
    ensures exists h: seq<Entry>, e: Entry ::
              |StoreAll(LLM_CACHE_MAX, h)| == 200 && |StoreAll(LLM_CACHE_MAX, h + [e])| == 199
  {
    CacheIsBoundedAndCurrent(EMBEDDING_CACHE_MAX, embeddings);
    CacheIsBoundedAndCurrent(LLM_CACHE_MAX, answers);
    hide StoreAll, Get, Latest;
    var h := RepeatedStoreShrinks(EMBEDDING_CACHE_MAX);
    var g := RepeatedStoreShrinks(LLM_CACHE_MAX);
  }
}
