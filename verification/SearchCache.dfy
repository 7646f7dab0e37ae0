/**
 * The search cache: entries with a time to live, found by their exact query or by a similar one, and
 * evicted in the order of their last use.
 */
module SearchCache {
  import opened Text
  import opened Trigrams

  datatype Entry = Entry(query: Bytes, trigrams: seq<nat>, results: seq<string>, createdAt: int)

  const THRESHOLD := 0.7
  const DEFAULT_ENTRIES := 50
  const DEFAULT_TTL := 5 * 60 * 1_000_000_000

  function Normalize(query: Bytes): (n: Bytes)
  {
    TrimSpaceTrims(query);
    var t := TrimSpace(query);
    assert forall i | 0 <= i < |t| :: t[i] in query;
    ToLower(t)
  }

  /** Queries are kept under one key exactly when they differ in case and outer whitespace at most. */
  lemma SameKeyIff(a: Bytes, b: Bytes)
    ensures Normalize(a) == Normalize(b) <==> SameLetters(TrimSpace(a), TrimSpace(b))
    ensures Normalize(a) == "" <==> AllSpace(a)
  {
    ToLowerFoldsIff(TrimSpace(a), TrimSpace(b));
    TrimSpaceEmptyIff(a);
  }

  /** How alike two queries are: common trigrams over all trigrams. */
  ghost function Alike(a: Bytes, b: Bytes): real {
    Similarity(Codes(a), Codes(b))
  }

  /** Queries of fewer than three bytes have no trigrams, so any of them answers any other. */
  lemma ShortQueriesAreAlike(a: Bytes, b: Bytes)
    requires |a| < 3 && |b| < 3
    ensures Alike(a, b) == 1.0 >= THRESHOLD
  {
  }

  // ----- the order of use

  ghost function Keys(order: seq<Bytes>): set<Bytes> {
    set k <- order
  }

  lemma KeysSnoc(order: seq<Bytes>, key: Bytes)
    ensures Keys(order + [key]) == Keys(order) + {key}
  {
  }

  /** The order lists keys by strictly increasing time of last use. */
  ghost predicate ByUse(order: seq<Bytes>, lastUse: map<Bytes, nat>, clock: nat) {
    && (forall i | 0 <= i < |order| :: order[i] in lastUse && lastUse[order[i]] < clock)
    && (forall i, k | 0 <= i < k < |order| :: lastUse[order[i]] < lastUse[order[k]])
  }

  /** Where `key` first occurs in the order; its length if nowhere. */
  function Index(order: seq<Bytes>, key: Bytes): (i: nat)
    ensures i <= |order| && (i < |order| ==> order[i] == key)
  {
    if order == [] || order[0] == key then 0 else 1 + Index(order[1..], key)
  }

  lemma {:induction false} IndexIsFirst(order: seq<Bytes>, key: Bytes, k: nat)
    requires k <= |order| && (forall j | 0 <= j < k :: order[j] != key) && (k < |order| ==> order[k] == key)
    ensures Index(order, key) == k
  {
    if order != [] && order[0] != key {
      IndexIsFirst(order[1..], key, k - 1);
    }
  }

  lemma {:induction false} IndexMisses(order: seq<Bytes>, key: Bytes)
    ensures forall k | 0 <= k < Index(order, key) :: order[k] != key
  {
    if order != [] && order[0] != key {
      IndexMisses(order[1..], key);
    }
  }

  /** The order with `key` moved, or added, at the end. */
  function Moved(order: seq<Bytes>, key: Bytes): seq<Bytes> {
    var i := Index(order, key);
    (if i < |order| then order[..i] + order[i + 1..] else order) + [key]
  }

  /** Using a key puts it last. */
  lemma MovedShape(order: seq<Bytes>, key: Bytes, lastUse: map<Bytes, nat>, clock: nat)
    requires ByUse(order, lastUse, clock)
    ensures ByUse(Moved(order, key), lastUse[key := clock], clock + 1)
  {
    var i := Index(order, key);
    IndexMisses(order, key);
    if i < |order| {
      forall k | i < k < |order|
        ensures order[k] != key
      {
        assert lastUse[order[i]] < lastUse[order[k]];
      }
    }
  }

  lemma MovedKeys(order: seq<Bytes>, key: Bytes)
    ensures Keys(Moved(order, key)) == Keys(order) + {key}
  {
    var i := Index(order, key);
    var moved := Moved(order, key);
    forall x
      ensures x in moved <==> x in order || x == key
    {
      if x in order {
        var k :| 0 <= k < |order| && order[k] == x;
        if k != i {
          assert moved[if k < i then k else k - if i < |order| then 1 else 0] == x;
        }
      }
    }
    assert moved[|moved| - 1] == key;
  }

  /** The keys of the order that are in `live`. */
  function LiveKeys(order: seq<Bytes>, live: set<Bytes>): (r: seq<Bytes>)
    ensures forall i | 0 <= i < |r| :: r[i] in order && r[i] in live
  {
    if order == [] then []
    else
      var last := order[|order| - 1];
      LiveKeys(order[..|order| - 1], live) + if last in live then [last] else []
  }

  lemma {:induction false} LiveKeysByUse(order: seq<Bytes>, live: set<Bytes>, lastUse: map<Bytes, nat>, clock: nat)
    requires ByUse(order, lastUse, clock)
    ensures ByUse(LiveKeys(order, live), lastUse, clock)
  {
    if order != [] {
      var front, last := order[..|order| - 1], order[|order| - 1];
      LiveKeysByUse(front, live, lastUse, clock);
      var r := LiveKeys(front, live);
      forall i | 0 <= i < |r|
        ensures lastUse[r[i]] < lastUse[last]
      {
        var k :| 0 <= k < |front| && front[k] == r[i];
        assert order[k] == r[i];
      }
    }
  }

  lemma {:induction false} LiveKeysAll(order: seq<Bytes>, live: set<Bytes>)
    ensures Keys(LiveKeys(order, live)) == Keys(order) * live
  {
    if order != [] {
      var front, last := order[..|order| - 1], order[|order| - 1];
      LiveKeysAll(front, live);
      KeysSnoc(front, last);
      KeysSnoc(LiveKeys(front, live), last);
      assert order == front + [last];
      assert LiveKeys(front, live) + [] == LiveKeys(front, live);
    }
  }

  lemma {:induction false} OrderSize(order: seq<Bytes>, lastUse: map<Bytes, nat>, clock: nat)
    requires ByUse(order, lastUse, clock)
    ensures |Keys(order)| == |order|
  {
    if order != [] {
      var front, last := order[..|order| - 1], order[|order| - 1];
      OrderSize(front, lastUse, clock);
      KeysSnoc(front, last);
      assert order == front + [last];
      assert last !in Keys(front) by { assert forall i | 0 <= i < |front| :: lastUse[order[i]] < lastUse[last]; }
    }
  }

  // ----- what the operations promise

  type Entries = map<Bytes, Entry>

  /** The entries that have not outlived `ttl`. */
  ghost function Live(entries: Entries, now: int, ttl: int): Entries {
    map k | k in entries && now - entries[k].createdAt < ttl :: entries[k]
  }

  ghost predicate Sound(k: Bytes, e: Entry) {
    e.query == k && Increasing(e.trigrams) && ToSet(e.trigrams) == ToSet(Codes(k))
  }

  /** The most similar of the live entries, if similar enough. */
  ghost predicate BestMatch(live: Entries, n: Bytes, hit: bool, used: Bytes) {
    && (hit <==> exists k :: k in live && Alike(n, k) >= THRESHOLD)
    && (hit ==> used in live && forall k <- live :: Alike(n, k) <= Alike(n, used))
  }

  /**
   * What is found for the normalized query `n`: live results only, those of the query itself if there are
   * any, otherwise those of the most similar query that is similar enough.
   */
  ghost predicate Finds(live: Entries, n: Bytes, hit: bool, used: Bytes) {
    if n == "" then !hit
    else if n in live then hit && used == n
    else BestMatch(live, n, hit, used)
  }

  /** The key used before all others. */
  ghost predicate IsLeastRecent(victim: Bytes, entries: Entries, lastUse: map<Bytes, nat>) {
    && victim in entries && entries.Keys <= lastUse.Keys
    && forall k <- entries | k != victim :: lastUse[victim] < lastUse[k]
  }

  /** Room for a new key: the entries as they are, or without exactly the least recently used one. */
  ghost predicate MakesRoom(before: Entries, after: Entries, limit: nat, lastUse: map<Bytes, nat>) {
    if |before| < limit then after == before
    else exists victim :: IsLeastRecent(victim, before, lastUse) && after == before - {victim}
  }

  /** The entries after storing `e` under `n` beside the live ones. */
  ghost predicate Stores(live: Entries, n: Bytes, e: Entry, after: Entries, limit: nat, lastUse: map<Bytes, nat>) {
    if n in live then after == live[n := e]
    else exists kept :: MakesRoom(live, kept, limit, lastUse) && after == kept[n := e]
  }

  /** The order lists exactly the keys of the entries, by last use. */
  ghost predicate Consistent(entries: Entries, order: seq<Bytes>, lastUse: map<Bytes, nat>, clock: nat) {
    Keys(order) == entries.Keys && ByUse(order, lastUse, clock)
  }

  ghost predicate AllSound(entries: Entries) {
    forall k <- entries :: Sound(k, entries[k])
  }

  lemma EmptyOrder(entries: Entries, order: seq<Bytes>)
    requires Keys(order) == entries.Keys
    ensures order == [] ==> |entries| == 0
  {
    assert |entries.Keys| == |entries|;
    assert order == [] ==> entries.Keys == {};
  }

  lemma UsingKeeps(entries: Entries, order: seq<Bytes>, moved: seq<Bytes>, lastUse: map<Bytes, nat>, clock: nat,
                   key: Bytes)
    requires Consistent(entries, order, lastUse, clock) && key in entries && moved == Moved(order, key)
    ensures Consistent(entries, moved, lastUse[key := clock], clock + 1)
  {
    MovedShape(order, key, lastUse, clock);
    MovedKeys(order, key);
  }

  lemma InsertKeeps(entries: Entries, order: seq<Bytes>, lastUse: map<Bytes, nat>, clock: nat, key: Bytes, e: Entry)
    requires Consistent(entries, order, lastUse, clock) && key !in entries
    ensures Consistent(entries[key := e], order + [key], lastUse[key := clock], clock + 1)
    ensures |entries[key := e]| == |entries| + 1
  {
    assert key !in order by { assert key !in Keys(order); }
    MovedShape(order, key, lastUse, clock);
    KeysSnoc(order, key);
    assert entries[key := e].Keys == entries.Keys + {key};
  }

  lemma ExpiredGo(entries: Entries, order: seq<Bytes>, lastUse: map<Bytes, nat>, clock: nat, now: int, ttl: int)
    requires Consistent(entries, order, lastUse, clock) && AllSound(entries)
    ensures var live := Live(entries, now, ttl);
            && Consistent(live, LiveKeys(order, live.Keys), lastUse, clock)
            && |live| <= |entries| && AllSound(live)
  {
    var live := Live(entries, now, ttl);
    LiveKeysByUse(order, live.Keys, lastUse, clock);
    LiveKeysAll(order, live.Keys);
    SmallerMap(live, entries);
  }

  lemma FirstIsLeastRecent(entries: Entries, order: seq<Bytes>, lastUse: map<Bytes, nat>, clock: nat)
    requires Consistent(entries, order, lastUse, clock) && order != []
    ensures IsLeastRecent(order[0], entries, lastUse)
  {
    assert order[0] in Keys(order);
    forall k <- entries
      ensures k in lastUse && (k != order[0] ==> lastUse[order[0]] < lastUse[k])
    {
      assert k in Keys(order);
    }
  }

  /** Dropping the first of the order drops the least recently used entry. */
  lemma OldestGoes(entries: Entries, order: seq<Bytes>, lastUse: map<Bytes, nat>, clock: nat)
    requires Consistent(entries, order, lastUse, clock) && order != []
    ensures IsLeastRecent(order[0], entries, lastUse)
    ensures Consistent(entries - {order[0]}, order[1..], lastUse, clock) && |entries - {order[0]}| < |entries|
  {
    FirstIsLeastRecent(entries, order, lastUse, clock);
    TailKeys(order, lastUse, clock);
    SmallerByOne(entries, order[0]);
  }

  lemma TailKeys(order: seq<Bytes>, lastUse: map<Bytes, nat>, clock: nat)
    requires ByUse(order, lastUse, clock) && order != []
    ensures Keys(order[1..]) == Keys(order) - {order[0]} && ByUse(order[1..], lastUse, clock)
  {
    assert forall i | 0 < i < |order| :: order[i] != order[0] by {
      assert forall i | 0 < i < |order| :: lastUse[order[0]] < lastUse[order[i]];
    }
    assert order == [order[0]] + order[1..];
  }

  lemma SmallerByOne(entries: Entries, key: Bytes)
    requires key in entries
    ensures (entries - {key}).Keys == entries.Keys - {key} && |entries - {key}| == |entries| - 1
  {
    var rest := entries - {key};
    assert |rest.Keys| == |rest| && |entries.Keys| == |entries|;
    assert rest.Keys == entries.Keys - {key};
  }

  lemma SmallerMap(a: Entries, b: Entries)
    requires a.Keys <= b.Keys
    ensures |a| <= |b|
  {
    assert b.Keys == a.Keys + (b.Keys - a.Keys);
    assert |a.Keys| == |a| && |b.Keys| == |b|;
  }

  /** The best match among the keys looked at so far. */
  ghost predicate BestOf(live: Entries, seen: set<Bytes>, query: Bytes, best: Bytes, sim: real) {
    && (sim > 0.0 ==> best in live && Alike(query, best) == sim)
    && forall k | k in live && k in seen :: Alike(query, k) <= sim
  }

  class SearchCache {
    var entries: Entries
    var order: seq<Bytes>
    const maxEntries: nat
    const ttl: int
    /** When each key was last stored or found, counted in operations. */
    ghost var lastUse: map<Bytes, nat>
    ghost var clock: nat

    ghost predicate Valid()
      reads this
    {
      0 < maxEntries && |entries| <= maxEntries && Consistent(entries, order, lastUse, clock) && AllSound(entries)
    }

    constructor (maxEntries: int, ttl: int)
      ensures Valid() && entries == map[]
      ensures this.maxEntries == (if maxEntries <= 0 then DEFAULT_ENTRIES else maxEntries)
      ensures this.ttl == (if ttl <= 0 then DEFAULT_TTL else ttl)
    {
      this.maxEntries := if maxEntries <= 0 then DEFAULT_ENTRIES else maxEntries;
      this.ttl := if ttl <= 0 then DEFAULT_TTL else ttl;
      entries, order, lastUse, clock := map[], [], map[], 0;
    }

    method MoveToEndLocked(key: Bytes)
      modifies this`order
      ensures order == Moved(old(order), key)
    {
      for i := 0 to |order|
        invariant order == old(order) && forall k | 0 <= k < i :: order[k] != key
      {
        if order[i] == key {
          IndexIsFirst(order, key, i);
          order := order[..i] + order[i + 1..];
          break;
        }
      }
      order := order + [key];
    }

    /** Marks a present key as used now. */
    method Touch(key: Bytes)
      requires Valid() && key in entries
      modifies this`order, this`lastUse, this`clock
      ensures Valid() && lastUse == old(lastUse)[key := old(clock)]
    {
      ghost var before := order;
      MoveToEndLocked(key);
      UsingKeeps(entries, before, order, lastUse, clock, key);
      lastUse, clock := lastUse[key := clock], clock + 1;
    }

    /** The live entry most like the query, and how alike it is. */
    method FindSimilar(query: Bytes, now: int) returns (best: Bytes, sim: real)
      requires Valid()
      ensures sim > 0.0 ==> best in Live(entries, now, ttl) && Alike(query, best) == sim
      ensures forall k <- Live(entries, now, ttl) :: Alike(query, k) <= sim
    {
      var trigrams := BuildTrigrams(query);
      var todo := entries.Keys;
      ghost var live := Live(entries, now, ttl);
      best, sim := "", 0.0;
      while todo != {}
        invariant todo <= entries.Keys && sim >= 0.0
        invariant BestOf(live, entries.Keys - todo, query, best, sim)
        decreases todo
      {
        var key :| key in todo;
        todo := todo - {key};
        if now - entries[key].createdAt >= ttl {
          continue;
        }
        var s := Compare(trigrams, entries[key].trigrams, query, key);
        if s > sim {
          best, sim := key, s;
        }
      }
    }

    method Compare(a: seq<nat>, b: seq<nat>, ghost query: Bytes, ghost key: Bytes) returns (sim: real)
      requires Increasing(a) && ToSet(a) == ToSet(Codes(query))
      requires Valid() && key in entries && b == entries[key].trigrams
      ensures sim == Alike(query, key)
    {
      assert Sound(key, entries[key]);
      sim := JaccardSimilarity(a, b);
    }

    method Get(query: Bytes, now: int) returns (results: seq<string>, hit: bool, used: Bytes)
      requires Valid()
      modifies this
      ensures Valid() && entries == old(entries)
      ensures var live := Live(entries, now, ttl);
              Finds(live, Normalize(query), hit, used) && (hit ==> used in live && results == live[used].results)
      ensures lastUse == if hit then old(lastUse)[used := old(clock)] else old(lastUse)
    {
      var normalized := Normalize(query);
      results, hit, used := [], false, "";
      if normalized == "" {
        return;
      }
      if normalized in entries {
        if now - entries[normalized].createdAt < ttl {
          Touch(normalized);
          return entries[normalized].results, true, normalized;
        }
      }
      var best, sim := FindSimilar(normalized, now);
      if sim >= THRESHOLD {
        Touch(best);
        return entries[best].results, true, best;
      }
    }

    /** Deletes the expired entries and returns the order of the others. */
    method DropExpired(now: int) returns (newOrder: seq<Bytes>)
      requires Keys(order) == entries.Keys
      modifies this`entries
      ensures entries == Live(old(entries), now, ttl) && newOrder == LiveKeys(order, entries.Keys)
    {
      ghost var before := entries;
      ghost var live := Live(entries, now, ttl);
      newOrder := [];
      for i := 0 to |order|
        invariant newOrder == LiveKeys(order[..i], live.Keys)
        invariant entries.Keys == before.Keys - (Keys(order[..i]) - live.Keys)
        invariant forall k <- entries :: entries[k] == before[k]
      {
        var key := order[i];
        assert order[..i + 1] == order[..i] + [key];
        KeysSnoc(order[..i], key);
        assert key in Keys(order);
        if key !in entries || now - entries[key].createdAt >= ttl {
          entries := entries - {key};
        } else {
          newOrder := newOrder + [key];
        }
      }
      assert order[..|order|] == order;
      assert entries.Keys == live.Keys;
    }

    method EvictExpiredLocked(now: int)
      requires Valid()
      modifies this`entries, this`order
      ensures Valid() && entries == Live(old(entries), now, ttl)
    {
      ExpiredGo(entries, order, lastUse, clock, now, ttl);
      var newOrder := DropExpired(now);
      order := newOrder;
    }

    /** Makes room for one entry. */
    method EvictOldest()
      requires Valid()
      modifies this`entries, this`order
      ensures Valid() && |entries| < maxEntries && MakesRoom(old(entries), entries, maxEntries, lastUse)
    {
      ghost var before, first := entries, order;
      OrderSize(order, lastUse, clock);
      EmptyOrder(entries, order);
      while |entries| >= maxEntries && |order| > 0
        invariant Valid()
        invariant if |entries| >= maxEntries || |before| < maxEntries then entries == before && order == first
                  else first != [] && entries == before - {first[0]}
        decreases |order|
      {
        OldestGoes(entries, order, lastUse, clock);
        var oldest := order[0];
        order := order[1..];
        entries := entries - {oldest};
      }
      if |before| >= maxEntries {
        FirstIsLeastRecent(before, first, lastUse, clock);
      }
    }

    /**
     * Stores results for a query. Expired entries go first; if the cache is still full and the query is
     * new, exactly the least recently used entry goes.
     */
    method Put(query: Bytes, results: seq<string>, now: int)
      requires Valid()
      modifies this
      ensures Valid()
      ensures var n := Normalize(query);
              if n == "" then entries == old(entries) && order == old(order) && lastUse == old(lastUse)
              else
                && n in entries && entries[n].results == results && entries[n].createdAt == now
                && Stores(Live(old(entries), now, ttl), n, entries[n], entries, maxEntries, old(lastUse))
                && lastUse == old(lastUse)[n := old(clock)]
    {
      var normalized := Normalize(query);
      if normalized == "" {
        return;
      }
      EvictExpiredLocked(now);
      var trigrams := BuildTrigrams(normalized);
      var entry := Entry(normalized, trigrams, results, now);
      if normalized in entries {
        entries := entries[normalized := entry];
        Touch(normalized);
        return;
      }
      EvictOldest();
      Insert(normalized, entry);
    }

    method Insert(key: Bytes, entry: Entry)
      requires Valid() && key !in entries && |entries| < maxEntries && Sound(key, entry)
      modifies this
      ensures Valid() && entries == old(entries)[key := entry] && lastUse == old(lastUse)[key := old(clock)]
    {
      InsertKeeps(entries, order, lastUse, clock, key, entry);
      entries := entries[key := entry];
      order := order + [key];
      lastUse, clock := lastUse[key := clock], clock + 1;
    }
  }
}
