/**
  The reconstruction cache of the lake read path (features/lake.py:310-457, 566-651): one
  ordered dictionary shared by all factories of the process, first in first out, used only
  for decisions on the hour.
*/
module LakeCaches {

  import opened Prelude
  import opened LakeMarket
  import H = LakeHolders

  /** One archive as the process sees it; it does not change while the process runs. */
  datatype Lake = Lake(rows: seq<Row>, snapshots: seq<H.Snapshot>)

  datatype Reconstruction = Reconstruction(market: set<Row>, holders: map<nat, H.Bucket>)

  /** The reference: what the asset's own evidence, read at exactly this time, amounts to. */
  ghost predicate IsFresh(lake: Lake, a: Address, ts: nat, r: Reconstruction) {
    r.market == Series(lake.rows, a, ts) && H.AreBuckets(H.Visible(lake.snapshots, ts), a, r.holders)
  }

  lemma FreshIsUnique(lake: Lake, a: Address, ts: nat, r: Reconstruction, s: Reconstruction)
    requires IsFresh(lake, a, ts, r) && IsFresh(lake, a, ts, s)
    ensures r == s
  {
    var seen := H.Visible(lake.snapshots, ts);
    forall h ensures h in r.holders <==> h in s.holders
             ensures h in r.holders && h in s.holders ==> r.holders[h] == s.holders[h] {
      if h in r.holders && h in s.holders {
        forall w ensures w in r.holders[h] <==> w in s.holders[h]
                 ensures w in r.holders[h] ==> r.holders[h][w] == s.holders[h][w] {
          assert H.BucketHolds(seen, a, h, w, r.holders[h]) && H.BucketHolds(seen, a, h, w, s.holders[h]);
        }
      }
    }
  }

  type StoreKey = nat

  datatype CacheKey = CacheKey(store: StoreKey, address: Address, hour: nat)

  type Entries = Dict<CacheKey, Reconstruction>

  /** A full cache drops its oldest entry before it takes a new one. */
  function Inserted(d: Entries, k: CacheKey, r: Reconstruction, max: nat): Entries
    requires max > 0
  {
    (if |d.order| >= max then d.Remove(d.order[0]) else d).Put(k, r)
  }

  ghost predicate Bounded(d: Entries, max: nat) {
    d.Valid() && |d.order| <= max
  }

  lemma InsertedIsBounded(d: Entries, k: CacheKey, r: Reconstruction, max: nat)
    requires Bounded(d, max) && max > 0
    ensures Bounded(Inserted(d, k, r, max), max)
  {
    if |d.order| >= max {
      OmitFirst(d.order);
    }
  }

  /** Entries other than the oldest survive, in the same order: a look-up never moves an entry back. */
  lemma InsertedEvictsTheOldest(d: Entries, k: CacheKey, r: Reconstruction, max: nat)
    requires Bounded(d, max) && max > 0 && k !in d.items
    ensures Inserted(d, k, r, max).order == (if |d.order| == max then d.order[1..] else d.order) + [k]
  {
    if |d.order| >= max {
      OmitFirst(d.order);
    }
  }

  ghost predicate EntriesAreFresh(d: Entries, lakes: map<StoreKey, Lake>) {
    forall k :: k in d.items ==> k.store in lakes && IsFresh(lakes[k.store], k.address, k.hour * HOUR, d.items[k])
  }

  lemma InsertedIsFresh(d: Entries, k: CacheKey, r: Reconstruction, max: nat, lakes: map<StoreKey, Lake>)
    requires EntriesAreFresh(d, lakes) && max > 0
    requires k.store in lakes && IsFresh(lakes[k.store], k.address, k.hour * HOUR, r)
    ensures EntriesAreFresh(Inserted(d, k, r, max), lakes)
  {
    hide IsFresh;
  }

  lemma CachedIsFresh(d: Entries, k: CacheKey, lakes: map<StoreKey, Lake>, ts: nat)
    requires EntriesAreFresh(d, lakes) && k in d.items && ts == k.hour * HOUR
    ensures k.store in lakes && IsFresh(lakes[k.store], k.address, ts, d.items[k])
  {
  }

  /** The addresses a look-up does not find, in order and with repetitions. */
  function Missing(addresses: seq<Address>, d: Entries, store: StoreKey, hour: nat): (todo: seq<Address>)
    ensures |todo| <= |addresses|
    ensures forall a :: a in todo <==> a in addresses && CacheKey(store, a, hour) !in d.items
  {
    if addresses == [] then []
    else
      var init := addresses[..|addresses| - 1];
      var last := addresses[|addresses| - 1];
      assert addresses == init + [last];
      Missing(init, d, store, hour) + if CacheKey(store, last, hour) in d.items then [] else [last]
  }

  /** Every address asked for and not found counts, as often as it is asked for. */
  lemma {:induction false} MissingCounts(addresses: seq<Address>, d: Entries, store: StoreKey, hour: nat)
    ensures |Missing(addresses, d, store, hour)|
         == |Wanting(addresses, d, store, hour)|
  {
    if addresses != [] {
      MissingCounts(addresses[..|addresses| - 1], d, store, hour);
      OneMoreAsked(addresses, d, store, hour);
      MissingStep(addresses, d, store, hour);
      hide Missing, Wanting;
    }
  }

  function Wanting(addresses: seq<Address>, d: Entries, store: StoreKey, hour: nat): set<int> {
    set i | 0 <= i < |addresses| && CacheKey(store, addresses[i], hour) !in d.items
  }

  lemma MissingStep(addresses: seq<Address>, d: Entries, store: StoreKey, hour: nat)
    requires addresses != []
    ensures |Missing(addresses, d, store, hour)|
         == |Missing(addresses[..|addresses| - 1], d, store, hour)|
            + if CacheKey(store, addresses[|addresses| - 1], hour) in d.items then 0 else 1
  {
  }

  lemma OneMoreAsked(addresses: seq<Address>, d: Entries, store: StoreKey, hour: nat)
    requires addresses != []
    ensures |Wanting(addresses, d, store, hour)|
         == |Wanting(addresses[..|addresses| - 1], d, store, hour)|
            + if CacheKey(store, addresses[|addresses| - 1], hour) in d.items then 0 else 1
  {
    var n := |addresses| - 1;
    var before := Wanting(addresses[..n], d, store, hour);
    assert Wanting(addresses, d, store, hour)
        == before + if CacheKey(store, addresses[n], hour) in d.items then {} else {n};
  }

  /** The last `n` elements, or all. */
  function LastOf<T>(s: seq<T>, n: nat): seq<T> {
    if |s| <= n then s else s[|s| - n..]
  }

  /** The keys of the addresses, each where it first occurs. */
  function KeysOf(store: StoreKey, todo: seq<Address>, hour: nat): seq<CacheKey> {
    if todo == [] then []
    else
      var init, last := todo[..|todo| - 1], todo[|todo| - 1];
      KeysOf(store, init, hour) + if last in init then [] else [CacheKey(store, last, hour)]
  }

  lemma {:induction false} KeysAre(store: StoreKey, todo: seq<Address>, hour: nat, k: CacheKey)
    ensures k in KeysOf(store, todo, hour) <==> k.store == store && k.hour == hour && k.address in todo
  {
    if todo != [] {
      var init, last := todo[..|todo| - 1], todo[|todo| - 1];
      assert todo == init + [last];
      KeysAre(store, init, hour, k);
    }
  }

  /**
    After a batch of missing addresses the cache holds, in this order, the latest of its old keys
    followed by the new ones: as many as its bound admits.
  */
  lemma {:induction false} BatchEntersInOrder(d: Entries, store: StoreKey, todo: seq<Address>,
                                              batch: map<Address, Reconstruction>, hour: nat, max: nat)
    requires max > 0 && Bounded(d, max) && forall a :: a in todo ==> a in batch && CacheKey(store, a, hour) !in d.items
    ensures Bounded(InsertedAll(d, store, todo, batch, hour, max), max)
    ensures InsertedAll(d, store, todo, batch, hour, max).order == LastOf(d.order + KeysOf(store, todo, hour), max)
  {
    hide Inserted, LastOf, Bounded, InsertedAll, KeysOf;
    if todo == [] {
      NothingEnters(d, store, batch, hour, max);
    } else {
      var init, last := todo[..|todo| - 1], todo[|todo| - 1];
      assert todo == init + [last];
      BatchEntersInOrder(d, store, init, batch, hour, max);
      var before := InsertedAll(d, store, init, batch, hour, max);
      LastEnters(d, store, todo, batch, hour, max);
      if last !in init {
        OneEnters(d, before, KeysOf(store, init, hour), store, init, hour, last, batch[last], max);
        assert d.order + (KeysOf(store, init, hour) + [CacheKey(store, last, hour)])
            == (d.order + KeysOf(store, init, hour)) + [CacheKey(store, last, hour)];
      }
    }
  }

  lemma NothingEnters(d: Entries, store: StoreKey, batch: map<Address, Reconstruction>, hour: nat, max: nat)
    requires max > 0 && Bounded(d, max)
    ensures InsertedAll(d, store, [], batch, hour, max) == d
    ensures LastOf(d.order + KeysOf(store, [], hour), max) == d.order
  {
    assert d.order + [] == d.order;
  }

  lemma LastEnters(d: Entries, store: StoreKey, todo: seq<Address>, batch: map<Address, Reconstruction>, hour: nat,
                   max: nat)
    requires max > 0 && todo != [] && forall a :: a in todo ==> a in batch
    ensures var init, last := todo[..|todo| - 1], todo[|todo| - 1];
            && (forall a :: a in init ==> a in batch) && last in batch
            && InsertedAll(d, store, todo, batch, hour, max)
               == (var before := InsertedAll(d, store, init, batch, hour, max);
                   if last in init then before else Inserted(before, CacheKey(store, last, hour), batch[last], max))
            && KeysOf(store, todo, hour)
               == if last in init then KeysOf(store, init, hour)
                  else KeysOf(store, init, hour) + [CacheKey(store, last, hour)]
  {
    hide Inserted;
  }

  lemma OneEnters(d: Entries, before: Entries, keys: seq<CacheKey>, store: StoreKey, init: seq<Address>, hour: nat,
                  a: Address, r: Reconstruction, max: nat)
    requires max > 0 && Bounded(d, max) && Bounded(before, max) && keys == KeysOf(store, init, hour) && a !in init
    requires CacheKey(store, a, hour) !in d.items && before.order == LastOf(d.order + keys, max)
    ensures var k := CacheKey(store, a, hour);
            && Bounded(Inserted(before, k, r, max), max)
            && Inserted(before, k, r, max).order == LastOf((d.order + keys) + [k], max)
  {
    hide Inserted, KeysOf;
    var k := CacheKey(store, a, hour);
    KeysAre(store, init, hour, k);
    KeyIsNew(d, before, keys, k, max);
    InsertedEvictsTheOldest(before, k, r, max);
    InsertedIsBounded(before, k, r, max);
    LastOfLonger(d.order + keys, k, max);
  }

  lemma KeyIsNew(d: Entries, before: Entries, keys: seq<CacheKey>, k: CacheKey, max: nat)
    requires d.Valid() && before.Valid() && before.order == LastOf(d.order + keys, max)
    requires k !in d.items && k !in keys
    ensures k !in before.items
  {
    assert forall x :: x in LastOf(d.order + keys, max) ==> x in d.order + keys;
  }

  lemma LastOfLonger<T>(s: seq<T>, x: T, n: nat)
    requires n > 0
    ensures LastOf(s + [x], n) == (if |LastOf(s, n)| == n then LastOf(s, n)[1..] else LastOf(s, n)) + [x]
  {
  }

  /** The cache after the new reconstructions of a batch, each address inserted once. */
  function InsertedAll(d: Entries, store: StoreKey, todo: seq<Address>, batch: map<Address, Reconstruction>, hour: nat,
                       max: nat): Entries
    requires max > 0 && forall a :: a in todo ==> a in batch
  {
    if todo == [] then d
    else
      var init := todo[..|todo| - 1];
      var last := todo[|todo| - 1];
      var before := InsertedAll(d, store, init, batch, hour, max);
      if last in init then before else Inserted(before, CacheKey(store, last, hour), batch[last], max)
  }

  /** The class-level state of all factories; `asked` counts the addresses asked for since the last reset. */
  class SharedCache {
    const maxEntries: nat
    ghost const lakes: map<StoreKey, Lake>
    var entries: Entries
    var hits: nat
    var misses: nat
    ghost var asked: nat

    ghost predicate Valid()
      reads this
    {
      && maxEntries > 0
      && Bounded(entries, maxEntries)
      && EntriesAreFresh(entries, lakes)
      && hits + misses == asked
    }

    constructor (maxEntries: nat, ghost lakes: map<StoreKey, Lake>)
      requires maxEntries > 0
      ensures Valid() && this.lakes == lakes && entries.order == [] && asked == 0
    {
      this.maxEntries := maxEntries;
      this.lakes := lakes;
      entries := Dict([], map[]);
      hits, misses, asked := 0, 0, 0;
    }

    method Clear()
      requires Valid()
      modifies `entries
      ensures Valid() && entries.order == []
    {
      entries := Dict([], map[]);
    }

    method ResetStats()
      requires Valid()
      modifies `hits, `misses, `asked
      ensures Valid() && asked == 0
    {
      hits, misses, asked := 0, 0, 0;
    }

    method CountHits(n: nat)
      requires Valid()
      modifies `hits, `asked
      ensures Valid() && hits == old(hits) + n && asked == old(asked) + n
    {
      hits, asked := hits + n, asked + n;
    }

    method CountMisses(n: nat)
      requires Valid()
      modifies `misses, `asked
      ensures Valid() && misses == old(misses) + n && asked == old(asked) + n
    {
      misses, asked := misses + n, asked + n;
    }

    method Insert(k: CacheKey, r: Reconstruction)
      requires Valid() && k.store in lakes && IsFresh(lakes[k.store], k.address, k.hour * HOUR, r)
      modifies `entries
      ensures Valid() && entries == Inserted(old(entries), k, r, maxEntries)
    {
      InsertedIsBounded(entries, k, r, maxEntries);
      InsertedIsFresh(entries, k, r, maxEntries, lakes);
      if |entries.order| >= maxEntries {
        entries := entries.Remove(entries.order[0]);
      }
      entries := entries.Put(k, r);
    }
  }

  class LakeFeatureFactory {
    const store: StoreKey
    const lake: Lake
    const cache: SharedCache

    ghost predicate Valid()
      reads cache
    {
      cache.Valid() && store in cache.lakes && cache.lakes[store] == lake
    }

    constructor (store: StoreKey, lake: Lake, cache: SharedCache)
      requires cache.Valid() && store in cache.lakes && cache.lakes[store] == lake
      ensures Valid() && this.store == store && this.lake == lake && this.cache == cache
    {
      this.store := store;
      this.lake := lake;
      this.cache := cache;
    }

    /** The batch's market query, one pass over the archived rows. */
    method MarketWinners(batch: set<Address>, ts: nat) returns (best: map<Group, Row>)
      ensures best == Winners(lake.rows, batch, ts)
    {
      best := map[];
      var i := 0;
      while i < |lake.rows|
        invariant 0 <= i <= |lake.rows|
        invariant best == Winners(lake.rows[..i], batch, ts)
      {
        var row := lake.rows[i];
        assert lake.rows[..i + 1][..i] == lake.rows[..i];
        var g := GroupOf(row);
        if row.observedAt <= ts && row.base in batch && (g !in best || row.observedAt < best[g].observedAt) {
          best := best[g := row];
        }
        i := i + 1;
      }
      assert lake.rows[..i] == lake.rows;
    }

    method ReconstructBatch(addresses: seq<Address>, ts: nat) returns (out: map<Address, Reconstruction>)
      requires OneBase(lake.rows, ts) && NoTie(lake.rows, ts)
      ensures out.Keys == set a | a in addresses
      ensures forall a :: a in out ==> IsFresh(lake, a, ts, out[a])
    {
      var batch := set a | a in addresses;
      var best := MarketWinners(batch, ts);
      var holders := H.HolderBuckets(H.Visible(lake.snapshots, ts), addresses);
      out := map a | a in addresses :: Reconstruction(set g | g in best && best[g].base == a :: best[g], holders[a]);
      forall a | a in out ensures out[a].market == Series(lake.rows, a, ts) {
        WinnersAreSeries(lake.rows, batch, ts, a);
      }
      hide Series;
    }

    /** One asset at one time; only a decision on the hour looks into the cache or adds to it. */
    method Reconstruct(a: Address, ts: nat) returns (r: Reconstruction)
      requires Valid() && OneBase(lake.rows, ts) && NoTie(lake.rows, ts)
      modifies cache
      ensures Valid() && cache.asked == old(cache.asked) + 1
      ensures IsFresh(lake, a, ts, r)
      ensures var key := CacheKey(store, a, ts / HOUR);
              cache.entries == if ts % HOUR != 0 || key in old(cache.entries).items then old(cache.entries)
                               else Inserted(old(cache.entries), key, r, cache.maxEntries)
      ensures cache.hits == old(cache.hits)
                            + if ts % HOUR == 0 && CacheKey(store, a, ts / HOUR) in old(cache.entries).items
                                then 1 else 0
    {
      hide Bounded, EntriesAreFresh, IsFresh, OneBase, NoTie, Inserted;
      if ts % HOUR != 0 {
        cache.CountMisses(1);
        var out := ReconstructBatch([a], ts);
        r := out[a];
      } else {
        var key := CacheKey(store, a, ts / HOUR);
        if key in cache.entries.items {
          cache.CountHits(1);
          r := cache.entries.items[key];
          CachedIsFresh(cache.entries, key, cache.lakes, ts);
        } else {
          cache.CountMisses(1);
          var out := ReconstructBatch([a], ts);
          r := out[a];
          cache.Insert(key, r);
        }
      }
    }

    method LookUp(addresses: seq<Address>, ts: nat)
      returns (cached: map<Address, Reconstruction>, todo: seq<Address>)
      requires Valid() && ts % HOUR == 0
      modifies cache`hits, cache`asked
      ensures Valid() && todo == Missing(addresses, cache.entries, store, ts / HOUR)
      ensures cache.hits == old(cache.hits) + |addresses| - |todo|
      ensures cache.asked == old(cache.asked) + |addresses| - |todo|
      ensures forall a :: a in addresses <==> a in cached || a in todo
      ensures forall a :: a in cached ==> IsFresh(lake, a, ts, cached[a])
    {
      hide Bounded, EntriesAreFresh, IsFresh;
      cached, todo := map[], [];
      var i := 0;
      while i < |addresses|
        invariant 0 <= i <= |addresses|
        invariant Valid() && todo == Missing(addresses[..i], cache.entries, store, ts / HOUR)
        invariant cache.hits == old(cache.hits) + i - |todo| && cache.asked == old(cache.asked) + i - |todo|
        invariant forall a :: a in addresses[..i] <==> a in cached || a in todo
        invariant forall a :: a in cached ==> IsFresh(lake, a, ts, cached[a])
      {
        var key := CacheKey(store, addresses[i], ts / HOUR);
        assert addresses[..i + 1] == addresses[..i] + [addresses[i]];
        assert addresses[..i + 1][..i] == addresses[..i];
        if key in cache.entries.items {
          CachedIsFresh(cache.entries, key, cache.lakes, ts);
          cached := cached[addresses[i] := cache.entries.items[key]];
          cache.CountHits(1);
        } else {
          todo := todo + [addresses[i]];
        }
        i := i + 1;
      }
      assert addresses[..i] == addresses;
    }

    method StoreAll(todo: seq<Address>, batch: map<Address, Reconstruction>, ts: nat)
      requires Valid() && ts % HOUR == 0
      requires forall a :: a in todo ==> a in batch && IsFresh(lake, a, ts, batch[a])
      modifies cache`entries
      ensures Valid()
      ensures cache.entries == InsertedAll(old(cache.entries), store, todo, batch, ts / HOUR, cache.maxEntries)
    {
      hide Bounded, EntriesAreFresh, IsFresh, Inserted;
      var i := 0;
      while i < |todo|
        invariant 0 <= i <= |todo|
        invariant Valid()
        invariant cache.entries == InsertedAll(old(cache.entries), store, todo[..i], batch, ts / HOUR, cache.maxEntries)
      {
        assert todo[..i + 1][..i] == todo[..i];
        if todo[i] !in todo[..i] {
          cache.Insert(CacheKey(store, todo[i], ts / HOUR), batch[todo[i]]);
        }
        i := i + 1;
      }
      assert todo[..i] == todo;
    }

    /**
      Many assets in one pass; each answer is the one the asset would get alone and uncached.
      Off the hour the cache is neither read nor written.
    */
    method BuildForAssets(addresses: seq<Address>, ts: nat) returns (recons: map<Address, Reconstruction>)
      requires Valid() && OneBase(lake.rows, ts) && NoTie(lake.rows, ts)
      modifies cache
      ensures Valid() && cache.asked == old(cache.asked) + |addresses|
      ensures recons.Keys == set a | a in addresses
      ensures forall a :: a in recons ==> IsFresh(lake, a, ts, recons[a])
      ensures var todo := if ts % HOUR == 0 then Missing(addresses, old(cache.entries), store, ts / HOUR)
                          else addresses;
              && cache.misses == old(cache.misses) + |todo|
              && cache.entries == if ts % HOUR != 0 then old(cache.entries)
                                  else InsertedAll(old(cache.entries), store, todo, recons, ts / HOUR, cache.maxEntries)
    {
      hide Bounded, EntriesAreFresh, IsFresh, OneBase, NoTie, Missing;
      recons := map[];
      var todo := addresses;
      if ts % HOUR == 0 {
        recons, todo := LookUp(addresses, ts);
      }
      if todo != [] {
        var batch := ReconstructBatch(todo, ts);
        recons := recons + batch;
        cache.CountMisses(|todo|);
        if ts % HOUR == 0 {
          StoreAll(todo, recons, ts);
        }
      }
    }
  }
}
